# ipcam_analysis — a Dafny model of the notification core

ipcam_analysis is an FTP server for IP cameras. When a camera finishes uploading a
snapshot, the server may send the image to an image-labelling service. From the labels
that come back it picks the interesting ones, draws their bounding boxes on a resized
copy, and emails that copy with an HTML list of what was seen. If processing fails it
sends one error email, and sends no more until a run succeeds again.

This project models that decision logic and proves properties of it:

- `process.py`:
  - the label policies (`format_parents`, `parse_labels_new`, `parse_labels_alarm`);
  - bounding-box collection (`parse_bounding_boxes`);
  - resize and box geometry, and caption placement (`draw_bounding_box`);
  - the format gate (`load_image`);
  - the sequence of steps in `process`;
  - the error-email throttle in `process_image`.
- `ipcam_analysis.py`:
  - the time-of-day gate (`check_time_window`);
  - the dispatch in `ImageProcessingHandler.on_file_received`.

Modules, each in its own file:

| module | file | contents |
|---|---|---|
| `Wrappers` | wrappers.dfy | `Option`, `Result` |
| `Numbers` | numbers.dfy | Python `int()` on a float, written `Trunc`; `{:.0f}` as round-half-even plus decimal digits |
| `Detection` | detection.dfy | the service's `Labels` records: name, confidence, parents, instances with `BoundingBox` |
| `OrderedDict` | ordered_dict.dfy | a Python `dict` as a sequence of key-value pairs: assigning an existing key replaces its value in place, a new key is appended |
| `LabelPolicy` | label_policy.dfy | the two parsers as loops over that dict, specified by one reference fold `Filtered` |
| `Template` | template.dfy | `string.Template.safe_substitute` as a scanner |
| `Annotation` | annotation.dfy | box collection, and the drawing loop as a sequence of drawing calls |
| `Notification` | notification.dfy | the HTML list, image tag, envelope, tokens, attachment name and error email |
| `Pipeline` | pipeline.dfy | `load_image`, and `process` as a method proved equal to the function `ProcessOutcome` |
| `Controller` | controller.dfy | `process_image`: a `Processor` class holding the global `error_email_sent` and a ghost outbox; the throttle as a state machine over runs |
| `TimeWindow` | time_window.dfy | `check_time_window` over microseconds since midnight |
| `IpcamAnalysis` | ipcam.dfy | `ImageProcessingHandler.on_file_received` over a `Disk` of files |

Inputs taken as values, because they come from I/O or from libraries:

- the configuration (a typed `Config`, read-only);
- the detection response: `None` stands for a `detect_labels` call that raises, or for a response the parsers cannot read;
- the decoded format and size of the image;
- the caption height `th` of the default font;
- the time of day and the ISO timestamp;
- the file suffix;
- the host name;
- the set of files present on disk.

Email delivery is modelled as never raising: `send_email` appends the email to the ghost `Processor.outbox`. The source catches only `ClientError` around the send; what the model then misses is listed under "## Left out".

The model follows the code on these points:

- The resize and corner formulas truncate with `int()`; they do not round.
- Boxes are collected for every instance of every returned label, not only the admitted ones. Captions use the plain label name and the instance's confidence.
- The list items format confidence with `{:.0f}`.
- When `process_image` raises before its `try`, `on_file_received` does not remove the file.
- The parenthesised display name depends on the formatted parent string being non-empty, not on the label having parents. The two differ for exactly one case: a single parent whose name is empty.

## Model

| member | source | states |
|---|---|---|
| Numbers.Trunc | process.py:228-244 | Python `int()` of a float, truncation toward zero; TruncBounds and TruncIsFloorWhenNonNegative state it |
| Numbers.TruncBounds | process.py:228-240 | `int()` of a float moves toward zero by less than one: `Trunc(x) <= x < Trunc(x)+1` for `x >= 0`, and `Trunc(x)-1 < x <= Trunc(x)` for `x < 0` |
| Numbers.TruncIsFloorWhenNonNegative | process.py:228-229 | on non-negative values `int()` is the floor |
| Numbers.RoundHalfEven | process.py:205 | the rounding behind `{:.0f}` rounds to the nearest integer (within 1/2), ties go to the even integer, and the result is non-negative for a non-negative value |
| Numbers.NatToDecimal | process.py:205-207 | `str()` of a natural number is a non-empty digit string; it starts with '0' only when it is "0" itself |
| Numbers.IntToDecimal | process.py:207 | `str()` of an integer is non-empty and starts with '-' exactly when the integer is negative |
| Numbers.IntToDecimalCanonical | process.py:207 | after the optional '-', `str()` of an integer is the digits of its magnitude: at least one digit, no leading zero, denoting the magnitude |
| Numbers.DecimalRoundTrip | process.py:205-207 | reading back the rendered digits gives the number |
| Numbers.FormatFixed0 | process.py:205 | `{:.0f}` of a non-negative confidence is a non-empty digit string without a leading zero (except "0" itself) whose value is the confidence rounded half to even |
| Detection.ParentNames | process.py:36-37 | the parent names in order, one per parent |
| OrderedDict.Get | process.py:64 | a lookup finds a value exactly when the key is present |
| OrderedDict.Put | process.py:64 | `d[k] = v` on an insertion-ordered dict; its effect is stated by PutGet, PutShape, PutDistinct and PutSize |
| OrderedDict.PutGet | process.py:64 | after `d[k] = v`, `k` reads `v` and every other key reads what it read before |
| OrderedDict.PutShape | process.py:64 | assigning an existing key keeps the length and every key's position; assigning a new key appends it at the end |
| OrderedDict.PutDistinct | process.py:64 | assignment keeps the keys distinct |
| OrderedDict.PutSize | process.py:64 | assignment grows the dict by at most one, and not at all when the key exists |
| LabelPolicy.Join | process.py:34-42 | the reference for `format_parents`: the names joined by ", "; FormatParents is proved equal to it, and JoinEmptyIff says when it is empty |
| LabelPolicy.SuffixedIsJoinWithSeparator | process.py:35-42 | the loop's accumulator, each name followed by ", ", is "" for no names and otherwise the ", "-join plus one trailing ", " |
| LabelPolicy.JoinEmptyIff | process.py:39-42 | the join is empty exactly when there are no names or just one empty name |
| LabelPolicy.FormatParents | process.py:34-42 | `format_parents` returns the parent names in order joined by ", ", and "" for no parents |
| LabelPolicy.DisplayNameWithParents | process.py:59-63 | the key is "Name (P1, P2)" when the joined parents are non-empty and the bare name when there are no parents |
| LabelPolicy.DisplayName | process.py:59-63 | the key of an ignore-mode label: "Name (parents)" when the joined parents are non-empty, else the name; its cases are stated by DisplayNameWithParents |
| LabelPolicy.HasIgnoredParent | process.py:52-56 | the inner loop's outcome: some parent's name is on the ignore list; Admit uses it, NewLabelsKeys states it as every parent name being off the list |
| LabelPolicy.Admit | process.py:45-83 | the key under which a label is stored, or none: in ignore mode the display name when neither the name nor a parent's name is ignored, in alarm mode the plain name when it is on the list; NewLabelsKeys and AlarmLabelsKeys state the resulting keys |
| LabelPolicy.Filtered | process.py:45-83 | the reference dict: the labels in order, each admitted one assigned under its key; the lemmas below state last-write-wins, key set, distinctness and size |
| LabelPolicy.LastAdmitted | process.py:47-83 | the reference for last-write-wins: the confidence of the last label admitted under a key; FilteredLastWriteWins and LastAdmittedIsLast state it |
| LabelPolicy.FilteredLastWriteWins | process.py:47-64 | each key of the parsed dict holds the confidence of the last label stored under it, and absent keys were produced by no label |
| LabelPolicy.LastAdmittedIsLast | process.py:47-64 | a key has a last writer exactly when some label is admitted under it; that writer is admitted under it, carries the stored confidence, and no later label is admitted under it |
| LabelPolicy.FilteredKeys | process.py:47-83 | a key is present exactly when some label is admitted under it |
| LabelPolicy.FilteredDistinct | process.py:46-64 | the parsed dict has distinct keys |
| LabelPolicy.FilteredSize | process.py:47-83 | the dict has at most as many entries as there are labels |
| LabelPolicy.NewLabelsKeys | process.py:50-64 | in ignore mode, a key is present exactly when some label whose name and parents' names are all off the ignore list has it as its display name |
| LabelPolicy.AlarmLabelsKeys | process.py:78-79 | in alarm mode, the keys are exactly the returned label names that are on the alarm list |
| LabelPolicy.ParseLabelsNew | process.py:45-70 | the loop, with its early `break` on an ignored parent, builds exactly the reference dict for ignore mode; the keys are distinct, there are at most `len(labels)` entries, and last write wins |
| LabelPolicy.ParseLabelsAlarm | process.py:73-83 | the loop builds exactly the reference dict for alarm mode; the keys are distinct, there are at most `len(labels)` entries, and last write wins |
| Template.IdentRun | process.py:216-217 | the placeholder name is the longest run of identifier characters |
| Template.SafeSubstitute | process.py:216-217 | `safe_substitute` as a left-to-right scanner over `$$`, `$name`, `${name}` and a lone `$`; its behaviour is stated by the lemmas below |
| Template.NoDollarUnchanged | process.py:216-217 | a template without '$' is returned unchanged |
| Template.DollarFreePrefix | process.py:209-217 | substitution leaves a '$'-free prefix in place, so the body still starts with "<html><body>" |
| Template.IdentRunOfIdentifier | process.py:216-217 | an identifier followed by a non-identifier character is read as a whole placeholder name |
| Template.NamedPlaceholder | process.py:214-217 | `$name` becomes the token's value when the token exists and stays as written otherwise |
| Template.BracedPlaceholder | process.py:214-217 | `${name}` becomes the token's value when the token exists and stays as written otherwise |
| Template.EscapedDollar | process.py:216-217 | `$$` becomes a single '$' |
| Annotation.LabelBoxes | process.py:89-92 | one `[name, instance]` item for each instance of a label, in order, with the label's plain name |
| Annotation.AllBoxes | process.py:86-94 | the reference list: every instance of every label, in label then instance order; AllBoxesAt, AllBoxesLength and AllBoxesAppend state it |
| Annotation.AllBoxesAppend | process.py:88-92 | collection distributes over concatenation of label lists |
| Annotation.AllBoxesAt | process.py:86-94 | instance `j` of label `i` sits at position (instances of the labels before `i`) + `j` |
| Annotation.AllBoxesLength | process.py:86-94 | the list length is the total number of instances |
| Annotation.Scaled | process.py:228-229 | one side of the resized copy, `int(side * r / 100)`, for width and height alike; FullFrame states the 100 percent case |
| Annotation.Span | process.py:237-240 | one axis of a box in pixels, `int(n * offset)` and `int(start + n * extent)`; AxisInsideFrame bounds it |
| Annotation.Corners | process.py:236-240 | the box corners (x0, y0, x1, y1) from the two axes; BoxInsideFrame and FullFrame state their range |
| Annotation.CaptionPosition | process.py:248-255 | below the box when the caption fits, above it otherwise; CaptionWithinBottom states the consequence |
| Annotation.CaptionText | process.py:244 | "Name N%" with the plain name and the truncated instance confidence |
| Annotation.DrawingOf | process.py:236-255 | one drawing iteration: the rectangle at the corners, then the caption at CaptionPosition; DrawItem is proved to issue it |
| Annotation.AllCalls | process.py:235-255 | the reference call sequence: each item's rectangle and caption, in item order; AllCallsAt and AllCallsLength state it, DrawBoundingBox is proved to issue it |
| Annotation.ParseBoundingBoxes | process.py:86-94 | the nested loops return every instance of every label, in label then instance order; the length is the instance count; `detected` is never read |
| Annotation.AllCallsAt | process.py:235-255 | the drawing loop makes two calls per item: call 2k is item k's rectangle and call 2k+1 its caption |
| Annotation.AllCallsLength | process.py:235-255 | there are twice as many drawing calls as items |
| Annotation.DrawItem | process.py:236-255 | one iteration draws the rectangle with the truncated corners, then the caption "Name N%" below the box if it fits and above it otherwise |
| Annotation.DrawBoundingBox | process.py:227-257 | the copy measures `int(W*r/100)` by `int(H*r/100)` and carries, in item order, each item's rectangle and caption |
| Annotation.FullFrame | process.py:228-240 | at 100 percent the size is kept, and the box (0,0,1,1) is drawn as (0,0)-(W,H) |
| Annotation.BoxInsideFrame | process.py:237-240 | a box inside the unit square has ordered corners inside the resized frame |
| Annotation.TruncMonotone | process.py:237-240 | truncation is monotone on non-negative values |
| Annotation.CaptionWithinBottom | process.py:248-255 | for a box whose top is inside the frame (`y0 <= h`), the caption never runs past the bottom edge; it goes below the box exactly when `y1 + th <= h`, except where the two positions coincide |
| Notification.ListItems | process.py:203-206 | the reference item string: one ListItem per entry in dict order; ListItemsAppend and ListItemsSingle state it, ListHtml is proved to build it |
| Notification.ListItemsAppend | process.py:203-206 | the list items of a dict are its entries' items concatenated in dict order |
| Notification.ListItemsSingle | process.py:205 | a one-entry dict gives one `<li><b>key</b>: N%</li>` |
| Notification.ListItem | process.py:205 | one `<li><b>key</b>: N%</li>` with N the `{:.0f}` rendering of the confidence |
| Notification.ListHtml | process.py:203-206 | the loop builds "<ul>", one item per admitted label in dict order, then "</ul>" |
| Notification.Tokens | process.py:214 | the tokens are exactly `camera`, `list` and `image` |
| Notification.ImageTag | process.py:207 | `<img src="cid:image01" .../>` with the attached image's width and height |
| Notification.Envelope | process.py:209-211 | the template wrapped in `<html><body>` and `</body></html>` |
| Notification.Basename | process.py:223 | `os.path.basename` returns the part after the last '/': a suffix of the path without '/', preceded by '/' when shorter than the path |
| Notification.BasenameOfPlainName | process.py:223 | the basename of a name without '/' is the name itself |
| Notification.AttachmentNamePlain | process.py:165-166 | without '/' in its parts, the attachment name is `camera_name + '_' + timestamp + ext` |
| Notification.AttachmentName | process.py:165-223 | `os.path.basename(camera_name + '_' + timestamp + ext)`; AttachmentNamePlain gives it for parts without '/' |
| Notification.ErrorEmail | process.py:280-282 | the error email: fixed subject and text, the host name, no attachment |
| Pipeline.LoadImage | process.py:138-147 | only JPEG and PNG are accepted, at their decoded size; undecodable data raises "unknown format"; any other format raises "unsupported format" naming it |
| Pipeline.PolicyOf | process.py:176-181 | `new_labels_only` selects ignore mode with the configured labels, otherwise alarm mode |
| Pipeline.KeysOf | process.py:193 | the keys of the dict, in order |
| Pipeline.AttachedImage | process.py:193-197 | the annotated resized copy when there is a box, otherwise the decoded image; AttachedImageShape states it |
| Pipeline.NotificationFor | process.py:203-224 | the one email: substituted subject and enveloped body with the three tokens, and the attachment; AdmittedLabelsSendOneEmail states it |
| Pipeline.ProcessOutcome | process.py:150-224 | the outcome of `process`: an exception, a normal return without email, or one email; stated by the lemmas below |
| Pipeline.Process | process.py:150-224 | the steps of `process` give exactly the outcome `ProcessOutcome` defines |
| Pipeline.EmptyFileFails | process.py:154-158 | a zero-length file raises, whatever the rest of the input |
| Pipeline.UnsupportedFormatFails | process.py:157-170 | a non-empty file that is not JPEG or PNG raises a format error before the service is consulted |
| Pipeline.NothingDetectedSendsNothing | process.py:183-185 | `process` returns normally without an email exactly when the input is valid, the service answers and no label is admitted |
| Pipeline.AdmittedLabelsSendOneEmail | process.py:192-224 | with an admitted label there is exactly one email: its subject and enveloped body are substituted with the three tokens, the body starts with "<html><body>", and its attachment is the image under `basename(camera_timestamp.ext)` |
| Pipeline.AttachedImageShape | process.py:193-197 | without boxes the original image is attached; with boxes the resized copy with two calls per instance |
| Controller.LastEntered | process.py:276-290 | the last run that reached `process` is never a rejected one |
| Controller.NextFlag | process.py:276-290 | the flag after one run: kept by a rejection, cleared by a success, set by a failure |
| Controller.SendsErrorEmail | process.py:280-284 | a run sends the error email when it fails with the flag clear |
| Controller.FlagAfter | process.py:276-290 | the flag after a sequence of runs; FlagRemembersLastEntered and FlagStaysSet state it |
| Controller.ErrorEmailCount | process.py:278-287 | the number of error emails a sequence of runs sends; FailuresSendOneEmail, SuccessRearms, CountPrefix and ThrottleExamples state it |
| Controller.KindOf | process.py:276-290 | the `try`/`except` split: an exception from `process` is a failed run, a normal return a successful one |
| Controller.FlagRemembersLastEntered | process.py:276-290 | `error_email_sent` is set exactly when the last run that reached `process` failed, and keeps its initial value before any such run |
| Controller.ErrorEmailIff | process.py:278-287 | a run sends the error email exactly when it failed and the last run that reached `process` succeeded, or there was none and the flag started clear |
| Controller.FlagStaysSet | process.py:280-290 | runs that do not succeed never clear a set flag |
| Controller.BetweenTwoErrorEmailsASuccess | process.py:278-290 | between two error emails there is always a successful run |
| Controller.FailuresSendOneEmail | process.py:269-290 | from a clear flag, runs none of which succeed send exactly one error email when one failed and none otherwise |
| Controller.SuccessRearms | process.py:289-290 | a success followed by a failure sends one more error email |
| Controller.CountPrefix | process.py:278-287 | the error-email count never decreases as runs are added |
| Controller.ThrottleExamples | process.py:278-290 | failure, failure sends one email; failure, failure, success, failure sends two; a rejected run in between changes nothing |
| Controller.MissingFileMessageAsWritten | process.py:272 | the message exactly as written, braces and all, whatever the path; MissingFileMessageAsWrittenHidesPath states it |
| Controller.MissingFileMessageAsWrittenHidesPath | process.py:272 | the message as written is the same for any two paths |
| Controller.MissingFileMessageAsWrittenExample | process.py:272 | two different paths, `/ftp/cam1/a.jpg` and `/ftp/cam2/b.jpg`, get the same message as written |
| Controller.MissingFileMessage | process.py:272 | the intended message contains the path |
| Controller.MissingFileMessageNamesPath | process.py:272 | with the intended message, different paths give different messages |
| Controller.Precheck | process.py:269-272 | `process_image` raises before its `try` exactly when the name is `None` or no file exists at it; a missing file raises with the message as written |
| Controller.MailOf | process.py:278-287 | a failed run mails exactly when the throttle lets it |
| Controller.Disk.Remove | ipcam_analysis.py:54 | `os.remove` deletes the file, and raises when there is none |
| Controller.Processor.constructor | process.py:260 | the flag starts clear and nothing has been sent |
| Controller.Processor.ProcessImage | process.py:263-290 | the pre-`try` checks raise and touch neither the flag nor the outbox; otherwise the flag becomes "this run failed" and the outbox gains the run's email, or the error email if the flag was clear |
| TimeWindow.CheckTimeWindow | ipcam_analysis.py:34-42 | without a start or an end every time is inside the window, and equal ends make it the whole day; the other cases are stated by the three lemmas below |
| TimeWindow.SameDayWindow | ipcam_analysis.py:39-40 | when start < end, active exactly when start <= now <= end, both ends included |
| TimeWindow.OvernightWindow | ipcam_analysis.py:41-42 | when start > end, active exactly when not strictly between end and start |
| TimeWindow.CircularSpan | ipcam_analysis.py:39-42 | the window's length measured forward from the start lies within one day |
| TimeWindow.WindowIsCircularInterval | ipcam_analysis.py:34-42 | for distinct ends, active exactly when `(now - start) mod 24h` is at most the window's forward length |
| TimeWindow.WindowExamples | ipcam_analysis.py:34-42 | 22:00–06:00 covers 23:30 and 03:00 but not 12:00; 08:00–17:00 includes 17:00 but not a microsecond later |
| IpcamAnalysis.ImageProcessingHandler.constructor | ipcam_analysis.py:45-47 | the handler keeps its user name, the shared processor and disk, the window, and the removal setting |
| IpcamAnalysis.ImageProcessingHandler.OnFileReceived | ipcam_analysis.py:47-55 | the file is processed exactly when inside the window, and otherwise flag and outbox are untouched; it is removed when `remove_files` is set, inside the window or not, unless `process_image` raised; removing a missing file raises |

## Left out

- `config.py`: loading YAML into a global is I/O. The configuration is a typed, read-only `Config` parameter, and `ftp_server.remove_files` is a field of the handler.
- The labelling and email services (`detect_labels`, `send_email` with its MIME construction): these are network and foreign libraries. The `detect_labels` response is an input, and `None` stands for any exception raised by the call or by reading its response. `send_email` is an append to a ghost outbox. The `MinConfidence` argument is not modelled.
- Image decoding, resizing, drawing pixels and JPEG encoding: foreign library calls. The decoded format and size are inputs. A picture is its size plus the sequence of drawing calls made on it.
- `ImageFont.load_default().getsize`: foreign. The caption height `th` is a single input shared by all captions.
- Annotation.DrawBoundingBox: does not model the exception `image.resize` raises when a truncated side is below one pixel (process.py:228-230). That happens for a zero or negative percentage, and also for a small positive one on a small image. The text width is not modelled either.
- Numbers.FormatFixed0: rounds the exact real value. Python rounds the nearest binary float, which can differ for values that are not representable.
- Floating point in general: fractions and confidences are exact reals.
- The clock (`datetime.now()`), `Path.suffix`, `os.uname()`, `os.path.exists` and reading the file: these are side-effect sources. They become the timestamp, suffix, host name and file map inputs.
- `datetime.strptime` of the window in `start_ftp`: library parsing. The window ends are given as times of day.
- `start_ftp`, `test_aws`, `dump_aws_env_vars`, `setup_logging`, `main` and `on_incomplete_file_received`: server setup, diagnostics and CLI plumbing.
- All logging calls, including the "Image ignored" message: observability only.
- Exceptions other than the ones listed in `Pipeline.Error`, such as an I/O error while reading the file.
- Pipeline.AdmittedLabelsSendOneEmail: does not model the `OSError` that `img.save(..., format='JPEG')` raises at process.py:201 for a PNG in a mode JPEG cannot hold, such as RGBA, LA, P, PA or 16-bit greyscale. Such an image with an admitted label fails after the detection call and gets the error email, where the model sends the notification.
- Controller.Processor.ProcessImage: models delivery as never raising. In the source the SES client is built outside the `try` (process.py:98) and only `ClientError` is caught (process.py:130), so a `BotoCoreError` such as a connection or credentials failure escapes `send_email`. In the success path that exception is caught as a failure of `process`. When it happens while sending the error email (process.py:282), `error_email_sent` is never set (process.py:284), the exception leaves `process_image`, and `on_file_received` skips removing the file (ipcam_analysis.py:52-55). None of this is modelled.

## Findings

| source | as written | input that shows it | evidently intended | confidence | as-written member | corrected member |
|---|---|---|---|---|---|---|
| process.py:272 | the message of the missing-file exception is a plain string with `{image_file}` in it; it lacks the `f` prefix that the neighbouring messages have | any two paths that do not exist, such as `/ftp/cam1/a.jpg` and `/ftp/cam2/b.jpg`, give the same text | the message names the missing path | not executed | Controller.MissingFileMessageAsWrittenHidesPath | Controller.MissingFileMessageNamesPath |
