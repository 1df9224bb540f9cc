/** The label records returned by the object-detection service (`detect_labels`). */
module Detection {

  /** A confidence score in percent, as the service reports it. */
  type Percent = r: real | 0.0 <= r <= 100.0

  /** A box in fractions of the image size; the service may report values
      outside [0, 1] for objects cut by the frame. */
  datatype BoundingBox = BoundingBox(left: real, top: real, width: real, height: real)

  /** One occurrence of a label, with its own confidence. */
  datatype Instance = Instance(box: BoundingBox, confidence: Percent)

  /** A parent category: `{'Name': ...}`. */
  datatype Parent = Parent(name: string)

  datatype Label = Label(name: string, confidence: Percent, parents: seq<Parent>, instances: seq<Instance>)

  function ParentNames(parents: seq<Parent>): (names: seq<string>)
    ensures |names| == |parents|
    ensures forall i :: 0 <= i < |parents| ==> names[i] == parents[i].name
  {
    seq(|parents|, i requires 0 <= i < |parents| => parents[i].name)
  }
}
