/** `parse_bounding_boxes` and `draw_bounding_box` of process.py. Pixel work is left
    to the imaging library; what is modelled is the size of the resized copy and the
    sequence of drawing calls issued on it. */
module Annotation {
  import opened Numbers
  import opened Detection

  /** One `[name, instance]` item of the box list. */
  type BoxItem = (string, Instance)

  /** The drawing calls on an image: an outlined rectangle, or a text at a position. */
  datatype DrawCall = Rectangle(x0: int, y0: int, x1: int, y1: int) | Text(x: int, y: int, text: string)

  /** A decoded image: its size, and the drawing calls made on it since it was created. */
  datatype Picture = Picture(width: int, height: int, drawn: seq<DrawCall>)

  /** The items for one label: its plain name paired with each of its instances. */
  function LabelBoxes(l: Label): (items: seq<BoxItem>)
    ensures |items| == |l.instances|
    ensures forall j :: 0 <= j < |l.instances| ==> items[j] == (l.name, l.instances[j])
  {
    seq(|l.instances|, j requires 0 <= j < |l.instances| => (l.name, l.instances[j]))
  }

  /** Every instance of every label, in label order and then instance order. */
  function AllBoxes(labels: seq<Label>): seq<BoxItem>
  {
    if |labels| == 0 then [] else AllBoxes(labels[..|labels| - 1]) + LabelBoxes(labels[|labels| - 1])
  }

  function InstanceCount(labels: seq<Label>): nat
  {
    if |labels| == 0 then 0 else InstanceCount(labels[..|labels| - 1]) + |labels[|labels| - 1].instances|
  }

  lemma {:induction false} AllBoxesAppend(a: seq<Label>, b: seq<Label>)
    ensures AllBoxes(a + b) == AllBoxes(a) + AllBoxes(b)
    decreases |b|
  {
    if |b| == 0 {
      assert a + b == a;
    } else {
      var b' := b[..|b| - 1];
      var last := b[|b| - 1];
      assert (a + b)[..|a + b| - 1] == a + b';
      assert (a + b)[|a + b| - 1] == last;
      AllBoxesAppend(a, b');
      calc {
        AllBoxes(a + b);
        AllBoxes(a + b') + LabelBoxes(last);
        (AllBoxes(a) + AllBoxes(b')) + LabelBoxes(last);
        AllBoxes(a) + (AllBoxes(b') + LabelBoxes(last));
        AllBoxes(a) + AllBoxes(b);
      }
    }
  }

  /** The list has one item per instance, and instance j of label i sits after the
      instances of the labels before it. */
  lemma {:induction false} AllBoxesAt(labels: seq<Label>, i: nat, j: nat)
    requires i < |labels| && j < |labels[i].instances|
    ensures |AllBoxes(labels)| == InstanceCount(labels)
    ensures InstanceCount(labels[..i]) + j < |AllBoxes(labels)|
    ensures AllBoxes(labels)[InstanceCount(labels[..i]) + j] == (labels[i].name, labels[i].instances[j])
  {
    var n := |labels| - 1;
    var pre := labels[..n];
    AllBoxesLength(labels);
    AllBoxesLength(pre);
    assert AllBoxes(labels) == AllBoxes(pre) + LabelBoxes(labels[n]);
    if i < n {
      AllBoxesAt(pre, i, j);
      assert pre[..i] == labels[..i];
      assert pre[i] == labels[i];
    } else {
      assert pre == labels[..i];
    }
  }

  lemma {:induction false} AllBoxesLength(labels: seq<Label>)
    ensures |AllBoxes(labels)| == InstanceCount(labels)
  {
    if |labels| > 0 {
      AllBoxesLength(labels[..|labels| - 1]);
    }
  }

  /** `parse_bounding_boxes`. The `detected` argument is accepted and never read. */
  method ParseBoundingBoxes(labels: seq<Label>, detected: seq<string>) returns (boxes: seq<BoxItem>)
    ensures boxes == AllBoxes(labels)
    ensures |boxes| == InstanceCount(labels)
  {
    boxes := [];
    var i := 0;
    while i < |labels|
      invariant 0 <= i <= |labels|
      invariant boxes == AllBoxes(labels[..i])
    {
      assert labels[..i + 1][..i] == labels[..i];
      var name := labels[i].name;
      var inst := labels[i].instances;
      var j := 0;
      while j < |inst|
        invariant 0 <= j <= |inst|
        invariant boxes == AllBoxes(labels[..i]) + LabelBoxes(labels[i])[..j]
      {
        assert LabelBoxes(labels[i])[..j + 1] == LabelBoxes(labels[i])[..j] + [(name, inst[j])];
        boxes := boxes + [(name, inst[j])];
        j := j + 1;
      }
      assert LabelBoxes(labels[i])[..j] == LabelBoxes(labels[i]);
      i := i + 1;
    }
    assert labels[..i] == labels;
    AllBoxesLength(labels);
  }

  /** One side of the resized copy: `int(side * resize / 100)`, for the width and the height alike. */
  function Scaled(side: int, resize: real): int {
    Trunc(side as real * resize / 100.0)
  }

  /** One axis of a box in pixels: `int(n * offset)` and `int(start + n * extent)`. */
  function Span(n: int, offset: real, extent: real): (int, int)
  {
    var start := Trunc(n as real * offset);
    (start, Trunc(start as real + n as real * extent))
  }

  /** A box's corners (x0, y0, x1, y1) in the resized frame of w by h pixels. */
  function Corners(w: int, h: int, b: BoundingBox): (int, int, int, int)
  {
    var (x0, x1) := Span(w, b.left, b.width);
    var (y0, y1) := Span(h, b.top, b.height);
    (x0, y0, x1, y1)
  }

  /** Where the caption of a box goes: below it when a text of height th still ends
      within the frame height h, otherwise above it. */
  function CaptionPosition(x0: int, y0: int, y1: int, th: int, h: int): (int, int)
  {
    if y1 + th <= h then (x0, y1) else (x0, y0 - th)
  }

  /** `"%s %s%%" % (name, int(confidence))` with the instance's own confidence. */
  function CaptionText(item: BoxItem): string {
    item.0 + " " + IntToDecimal(Trunc(item.1.confidence)) + "%"
  }

  /** The two calls made for one item: the outline, then its caption. */
  datatype ItemDrawing = ItemDrawing(outline: DrawCall, caption: DrawCall)

  function DrawingOf(w: int, h: int, th: int, item: BoxItem): ItemDrawing
  {
    var (x0, y0, x1, y1) := Corners(w, h, item.1.box);
    var (tx, ty) := CaptionPosition(x0, y0, y1, th, h);
    ItemDrawing(Rectangle(x0, y0, x1, y1), Text(tx, ty, CaptionText(item)))
  }

  /** The calls for all items, in item order. */
  function AllCalls(w: int, h: int, th: int, items: seq<BoxItem>): seq<DrawCall>
  {
    if |items| == 0 then []
    else
      var d := DrawingOf(w, h, th, items[|items| - 1]);
      AllCalls(w, h, th, items[..|items| - 1]) + [d.outline, d.caption]
  }

  /** For item k the outline is call 2k and its caption call 2k+1. */
  lemma {:induction false} AllCallsAt(w: int, h: int, th: int, items: seq<BoxItem>, k: nat)
    requires k < |items|
    ensures |AllCalls(w, h, th, items)| == 2 * |items|
    ensures AllCalls(w, h, th, items)[2 * k] == DrawingOf(w, h, th, items[k]).outline
    ensures AllCalls(w, h, th, items)[2 * k + 1] == DrawingOf(w, h, th, items[k]).caption
  {
    var n := |items| - 1;
    var pre := items[..n];
    AllCallsLength(w, h, th, pre);
    if k < n {
      AllCallsAt(w, h, th, pre, k);
      assert pre[k] == items[k];
    }
  }

  lemma {:induction false} AllCallsLength(w: int, h: int, th: int, items: seq<BoxItem>)
    ensures |AllCalls(w, h, th, items)| == 2 * |items|
  {
    if |items| > 0 {
      AllCallsLength(w, h, th, items[..|items| - 1]);
    }
  }

  /** The body of the drawing loop for one item: the outline, then the caption. */
  method DrawItem(w: int, h: int, th: int, item: BoxItem) returns (calls: seq<DrawCall>)
    ensures calls == [DrawingOf(w, h, th, item).outline, DrawingOf(w, h, th, item).caption]
  {
    var (x0, y0, x1, y1) := Corners(w, h, item.1.box);
    calls := [Rectangle(x0, y0, x1, y1)];
    var text := CaptionText(item);
    if y1 + th <= h {
      calls := calls + [Text(x0, y1, text)];
    } else {
      calls := calls + [Text(x0, y0 - th, text)];
    }
  }

  /** `draw_bounding_box(box_data, image, resize)`, with th the height of the captions
      in the default font. The input picture is left as it was. */
  method DrawBoundingBox(boxData: seq<BoxItem>, image: Picture, resize: real, th: int) returns (rim: Picture)
    ensures rim.width == Scaled(image.width, resize)
    ensures rim.height == Scaled(image.height, resize)
    ensures rim.drawn == AllCalls(rim.width, rim.height, th, boxData)
  {
    var w := Scaled(image.width, resize);
    var h := Scaled(image.height, resize);
    var calls: seq<DrawCall> := [];
    var k := 0;
    while k < |boxData|
      invariant 0 <= k <= |boxData|
      invariant calls == AllCalls(w, h, th, boxData[..k])
    {
      assert boxData[..k + 1][..k] == boxData[..k];
      var drawn := DrawItem(w, h, th, boxData[k]);
      calls := calls + drawn;
      k := k + 1;
    }
    assert boxData[..k] == boxData;
    rim := Picture(w, h, calls);
  }

  /** At 100 percent the copy keeps the original size, and the unit box spans the whole frame. */
  lemma FullFrame(width: nat, height: nat)
    ensures Scaled(width, 100.0) == width && Scaled(height, 100.0) == height
    ensures Corners(width, height, BoundingBox(0.0, 0.0, 1.0, 1.0)) == (0, 0, width, height)
  {
  }

  /** A box inside the unit square is drawn inside the frame, with its corners ordered. */
  lemma BoxInsideFrame(w: nat, h: nat, b: BoundingBox)
    requires 0.0 <= b.left && 0.0 <= b.width && b.left + b.width <= 1.0
    requires 0.0 <= b.top && 0.0 <= b.height && b.top + b.height <= 1.0
    ensures var (x0, y0, x1, y1) := Corners(w, h, b);
            0 <= x0 <= x1 <= w && 0 <= y0 <= y1 <= h
  {
    AxisInsideFrame(w, b.left, b.width);
    AxisInsideFrame(h, b.top, b.height);
  }

  /** One axis of BoxInsideFrame: offset a and span d of the unit interval, scaled to n pixels. */
  lemma AxisInsideFrame(n: nat, a: real, d: real)
    requires 0.0 <= a && 0.0 <= d && a + d <= 1.0
    ensures 0 <= Span(n, a, d).0 <= Span(n, a, d).1 <= n
  {
    ScaledSpan(n as real, a, d);
    SpanBound(n, n as real * a, n as real * d);
  }

  /** An offset p and a span q that fit in n pixels give truncated corners within [0, n]. */
  lemma SpanBound(n: nat, p: real, q: real)
    requires 0.0 <= p && 0.0 <= q && p + q <= n as real
    ensures 0 <= Trunc(p) <= Trunc(Trunc(p) as real + q) <= n
  {
    TruncBounds(p);
    TruncMonotone(Trunc(p) as real, Trunc(p) as real + q);
    TruncMonotone(Trunc(p) as real + q, n as real);
  }

  /** For 0 <= a, 0 <= d and a + d <= 1, the scaled offset and span stay within the scale. */
  lemma ScaledSpan(n: real, a: real, d: real)
    requires 0.0 <= n && 0.0 <= a && 0.0 <= d && a + d <= 1.0
    ensures 0.0 <= n * a && 0.0 <= n * d && n * a + n * d <= n
  {
    assert n * a + n * d == n * (a + d);
    assert n * (a + d) <= n * 1.0;
  }

  lemma TruncMonotone(x: real, y: real)
    requires 0.0 <= x <= y
    ensures Trunc(x) <= Trunc(y)
  {
  }

  /** The caption never runs past the bottom of the frame when the box's top edge
      is inside it: it goes below only when it fits, otherwise it ends at the top edge. */
  lemma CaptionWithinBottom(x0: int, y0: int, y1: int, th: int, h: int)
    requires y0 <= h
    ensures CaptionPosition(x0, y0, y1, th, h).1 + th <= h
    ensures CaptionPosition(x0, y0, y1, th, h) == (x0, y1) <==> y1 + th <= h || (y0 - th == y1)
  {
  }
}
