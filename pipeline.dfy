/** `load_image` and `process` of process.py: one image from its bytes to at most
    one notification email. The file read, the clock, the detection service and the
    imaging library are inputs. */
module Pipeline {
  import opened Wrappers
  import opened Detection
  import opened OrderedDict
  import opened LabelPolicy
  import opened Template
  import opened Annotation
  import opened Notification

  newtype byte = b: int | 0 <= b < 256

  /** What the imaging library makes of the bytes: its format tag and size. */
  datatype Decoded = Decoded(format: string, width: nat, height: nat)

  /** A stored upload: its bytes, their decoding (None when the library cannot
      identify them) and `Path(path).suffix` of the name it is stored under. */
  datatype ImageFile = ImageFile(data: seq<byte>, decoded: Option<Decoded>, suffix: string)

  /** The configuration keys `process` reads. */
  datatype Config = Config(
    newLabelsOnly: bool,      // `new_labels_only`
    labels: seq<string>,      // `labels`: the ignore list or the alarm list
    resizePercent: real,      // `rekognition.image_resize_percent`
    subject: string,          // `email.subject`
    messageHtml: string)      // `email.message_html`

  /** The exceptions raised on the way. */
  datatype Error =
    | EmptyImageFile
    | UnknownImageFormat
    | UnsupportedImageFormat(format: string)
    | DetectionFailed
    | NoImageFile
    | MissingImageFile(message: string)  // carries the message as `process_image` writes it
    | CannotRemoveFile(path: string)

  /** `load_image`: only JPEG and PNG are accepted. */
  function LoadImage(f: ImageFile): (r: Result<Picture, Error>)
    ensures r.Ok? <==> f.decoded.Some? && (f.decoded.value.format == "JPEG" || f.decoded.value.format == "PNG")
    ensures r.Ok? ==> r.value == Picture(f.decoded.value.width, f.decoded.value.height, [])
    ensures f.decoded.None? ==> r == Err(UnknownImageFormat)
    ensures r.Err? && f.decoded.Some? ==> r == Err(UnsupportedImageFormat(f.decoded.value.format))
  {
    match f.decoded
    case None => Err(UnknownImageFormat)
    case Some(img) =>
      if img.format != "JPEG" && img.format != "PNG" then Err(UnsupportedImageFormat(img.format))
      else Ok(Picture(img.width, img.height, []))
  }

  function PolicyOf(cfg: Config): Policy {
    if cfg.newLabelsOnly then NewLabels(cfg.labels) else AlarmLabels(cfg.labels)
  }

  function KeysOf(d: Dict<Percent>): (keys: seq<string>)
    ensures |keys| == |d| && forall i :: 0 <= i < |d| ==> keys[i] == d[i].0
  {
    seq(|d|, i requires 0 <= i < |d| => d[i].0)
  }

  /** The image that is attached: the annotated resized copy when there is at least one
      box, otherwise the decoded image as it is. */
  function AttachedImage(img: Picture, labels: seq<Label>, cfg: Config, th: int): Picture {
    var boxes := AllBoxes(labels);
    if |boxes| > 0 then
      var w := Scaled(img.width, cfg.resizePercent);
      var h := Scaled(img.height, cfg.resizePercent);
      Picture(w, h, AllCalls(w, h, th, boxes))
    else img
  }

  /** The email `process` sends for a non-empty dictionary of admitted labels. */
  function NotificationFor(camera: string, cfg: Config, detected: Dict<Percent>, image: Picture, filename: string): Email {
    var tokens := Tokens(camera, "<ul>" + ListItems(detected) + "</ul>", ImageTag(image));
    Email(SafeSubstitute(cfg.subject, tokens), SafeSubstitute(Envelope(cfg.messageHtml), tokens),
          Some(Attachment(image, filename)))
  }

  /** The outcome of `process(image_file, camera_name)`: an exception, a normal return
      without email, or a normal return after exactly one email. `service` is the
      response of `detect_labels`, None when the call raises or the parsers cannot read
      the response; either way `process` raises before any email is sent. */
  function ProcessOutcome(file: ImageFile, camera: string, cfg: Config, service: Option<seq<Label>>,
                          timestamp: string, th: int): Result<Option<Email>, Error>
  {
    if |file.data| == 0 then Err(EmptyImageFile)
    else match LoadImage(file)
      case Err(e) => Err(e)
      case Ok(img) =>
        match service
        case None => Err(DetectionFailed)
        case Some(labels) =>
          var detected := Filtered(PolicyOf(cfg), labels);
          if |detected| == 0 then Ok(None)
          else
            var image := AttachedImage(img, labels, cfg, th);
            Ok(Some(NotificationFor(camera, cfg, detected, image, AttachmentName(camera, timestamp, file.suffix))))
  }

  /** `process`. */
  method Process(file: ImageFile, camera: string, cfg: Config, service: Option<seq<Label>>,
                 timestamp: string, th: int) returns (r: Result<Option<Email>, Error>)
    ensures r == ProcessOutcome(file, camera, cfg, service, timestamp, th)
  {
    if |file.data| == 0 {
      return Err(EmptyImageFile);
    }
    var loaded := LoadImage(file);
    if loaded.Err? {
      return Err(loaded.error);
    }
    var img := loaded.value;
    var timestampFilename := camera + "_" + timestamp + file.suffix;
    if service.None? {
      return Err(DetectionFailed);
    }
    var labels := service.value;
    var detected;
    if cfg.newLabelsOnly {
      detected := ParseLabelsNew(labels, cfg.labels);
    } else {
      detected := ParseLabelsAlarm(labels, cfg.labels);
    }
    if |detected| == 0 {
      return Ok(None);
    }
    var boxes := ParseBoundingBoxes(labels, KeysOf(detected));
    if |boxes| > 0 {
      img := DrawBoundingBox(boxes, img, cfg.resizePercent, th);
    }
    var listHtml := ListHtml(detected);
    var imageHtml := ImageTag(img);
    var messageHtml := "<html><body>" + cfg.messageHtml + "</body></html>";
    var tokens := map["camera" := camera, "list" := listHtml, "image" := imageHtml];
    var subject := SafeSubstitute(cfg.subject, tokens);
    var body := SafeSubstitute(messageHtml, tokens);
    r := Ok(Some(Email(subject, body, Some(Attachment(img, Basename(timestampFilename))))));
  }

  /** An empty file is an error, whatever else holds. */
  lemma EmptyFileFails(file: ImageFile, camera: string, cfg: Config, service: Option<seq<Label>>, timestamp: string, th: int)
    requires |file.data| == 0
    ensures ProcessOutcome(file, camera, cfg, service, timestamp, th) == Err(EmptyImageFile)
  {
  }

  /** A non-empty file that is not JPEG or PNG fails with a format error before the
      detection service is consulted, so never with DetectionFailed. */
  lemma UnsupportedFormatFails(file: ImageFile, camera: string, cfg: Config, service: Option<seq<Label>>, timestamp: string, th: int)
    requires |file.data| > 0
    requires file.decoded.None? || (file.decoded.value.format != "JPEG" && file.decoded.value.format != "PNG")
    ensures var r := ProcessOutcome(file, camera, cfg, service, timestamp, th);
            r.Err? && r.error != DetectionFailed
            && (r.error == UnknownImageFormat || r.error == UnsupportedImageFormat(file.decoded.value.format))
  {
  }

  /** A normal return without email happens exactly when the input is valid, the service
      answers, and the policy admits no label. */
  lemma NothingDetectedSendsNothing(file: ImageFile, camera: string, cfg: Config, service: Option<seq<Label>>, timestamp: string, th: int)
    ensures ProcessOutcome(file, camera, cfg, service, timestamp, th) == Ok(None) <==>
              |file.data| > 0 && LoadImage(file).Ok? && service.Some? && |Filtered(PolicyOf(cfg), service.value)| == 0
  {
  }

  /** Once a label is admitted, a valid run sends exactly one email: the body is the
      enveloped fragment with the tokens substituted, after a literal "<html><body>",
      and the attachment is the annotated image named after the camera and time. */
  lemma AdmittedLabelsSendOneEmail(file: ImageFile, camera: string, cfg: Config, labels: seq<Label>, timestamp: string, th: int)
    requires |file.data| > 0 && LoadImage(file).Ok?
    requires |Filtered(PolicyOf(cfg), labels)| > 0
    ensures var r := ProcessOutcome(file, camera, cfg, Some(labels), timestamp, th);
            var detected := Filtered(PolicyOf(cfg), labels);
            var image := AttachedImage(LoadImage(file).value, labels, cfg, th);
            var tokens := Tokens(camera, "<ul>" + ListItems(detected) + "</ul>", ImageTag(image));
            r.Ok? && r.value.Some?
            && r.value.value.subject == SafeSubstitute(cfg.subject, tokens)
            && r.value.value.body == "<html><body>" + SafeSubstitute(cfg.messageHtml + "</body></html>", tokens)
            && r.value.value.attachment == Some(Attachment(image, Basename(camera + "_" + timestamp + file.suffix)))
  {
    var detected := Filtered(PolicyOf(cfg), labels);
    var image := AttachedImage(LoadImage(file).value, labels, cfg, th);
    var tokens := Tokens(camera, "<ul>" + ListItems(detected) + "</ul>", ImageTag(image));
    assert Envelope(cfg.messageHtml) == "<html><body>" + (cfg.messageHtml + "</body></html>");
    DollarFreePrefix("<html><body>", cfg.messageHtml + "</body></html>", tokens);
  }

  /** Without boxes the attachment is the decoded image at its own size; with boxes it is
      the resized copy carrying two drawing calls per box. */
  lemma AttachedImageShape(img: Picture, labels: seq<Label>, cfg: Config, th: int)
    ensures InstanceCount(labels) == 0 ==> AttachedImage(img, labels, cfg, th) == img
    ensures InstanceCount(labels) > 0 ==>
              var a := AttachedImage(img, labels, cfg, th);
              a.width == Scaled(img.width, cfg.resizePercent)
              && a.height == Scaled(img.height, cfg.resizePercent)
              && |a.drawn| == 2 * InstanceCount(labels)
  {
    AllBoxesLength(labels);
    AllCallsLength(Scaled(img.width, cfg.resizePercent), Scaled(img.height, cfg.resizePercent), th, AllBoxes(labels));
  }
}
