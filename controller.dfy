/** `process_image` of process.py: the checks before the `try`, and the one-bit throttle
    over the module global `error_email_sent` that keeps a run of failures from sending
    more than one error email. */
module Controller {
  import opened Wrappers
  import opened Detection
  import opened Notification
  import opened Pipeline

  // ---------------------------------------------------------------------------
  // The throttle as a state machine over runs
  // ---------------------------------------------------------------------------

  /** One call of `process_image`: rejected before the `try` (no name or no such file),
      or `process` returning normally, or `process` raising. */
  datatype RunKind = Rejected | Succeeded | Failed

  /** The flag after one call. */
  function NextFlag(flag: bool, run: RunKind): bool {
    match run
    case Rejected => flag
    case Succeeded => false
    case Failed => true
  }

  /** Whether one call sends the error email. */
  predicate SendsErrorEmail(flag: bool, run: RunKind) {
    run == Failed && !flag
  }

  /** The flag after a sequence of calls, starting from `flag`. */
  function FlagAfter(flag: bool, runs: seq<RunKind>): bool {
    if |runs| == 0 then flag else NextFlag(FlagAfter(flag, runs[..|runs| - 1]), runs[|runs| - 1])
  }

  /** Whether call `i` of `runs` sends the error email. */
  predicate EmailAt(flag: bool, runs: seq<RunKind>, i: int)
    requires 0 <= i < |runs|
  {
    SendsErrorEmail(FlagAfter(flag, runs[..i]), runs[i])
  }

  /** The number of error emails a sequence of calls sends. */
  function ErrorEmailCount(flag: bool, runs: seq<RunKind>): nat {
    if |runs| == 0 then 0
    else
      var prefix := runs[..|runs| - 1];
      ErrorEmailCount(flag, prefix) + (if SendsErrorEmail(FlagAfter(flag, prefix), runs[|runs| - 1]) then 1 else 0)
  }

  /** The last call that reached `process`, if any. */
  function LastEntered(runs: seq<RunKind>): (r: Option<RunKind>)
    ensures r.Some? ==> r.value != Rejected
  {
    if |runs| == 0 then None
    else if runs[|runs| - 1] != Rejected then Some(runs[|runs| - 1])
    else LastEntered(runs[..|runs| - 1])
  }

  /** The flag is set exactly when the last call that reached `process` failed; before
      any such call it keeps its initial value. */
  lemma {:induction false} FlagRemembersLastEntered(flag: bool, runs: seq<RunKind>)
    ensures FlagAfter(flag, runs) == if LastEntered(runs).None? then flag else LastEntered(runs).value == Failed
    decreases |runs|
  {
    if |runs| > 0 {
      FlagRemembersLastEntered(flag, runs[..|runs| - 1]);
    }
  }

  /** A failing call sends the error email exactly when no earlier call reached `process`
      with the flag initially clear, or the last one that did succeeded. */
  lemma ErrorEmailIff(flag: bool, runs: seq<RunKind>, i: int)
    requires 0 <= i < |runs|
    ensures EmailAt(flag, runs, i) <==>
              runs[i] == Failed
              && (if LastEntered(runs[..i]).None? then !flag else LastEntered(runs[..i]) == Some(Succeeded))
  {
    FlagRemembersLastEntered(flag, runs[..i]);
  }

  /** Calls that do not succeed never clear a set flag. */
  lemma {:induction false} FlagStaysSet(flag: bool, runs: seq<RunKind>, i: int, j: int)
    requires 0 <= i <= j <= |runs|
    requires FlagAfter(flag, runs[..i])
    requires forall k :: i <= k < j ==> runs[k] != Succeeded
    ensures FlagAfter(flag, runs[..j])
    decreases j - i
  {
    if i < j {
      assert runs[..i + 1][..i] == runs[..i];
      FlagStaysSet(flag, runs, i + 1, j);
    }
  }

  /** Between two error emails there is always a successful call: a run of failures,
      however long and however interleaved with rejected calls, sends one email. */
  lemma BetweenTwoErrorEmailsASuccess(flag: bool, runs: seq<RunKind>, i: int, j: int)
    requires 0 <= i < j < |runs|
    requires EmailAt(flag, runs, i) && EmailAt(flag, runs, j)
    ensures exists k :: i < k < j && runs[k] == Succeeded
  {
    assert runs[..i + 1][..i] == runs[..i];
    assert FlagAfter(flag, runs[..i + 1]);
    if forall k :: i + 1 <= k < j ==> runs[k] != Succeeded {
      FlagStaysSet(flag, runs, i + 1, j);
      assert false;
    }
  }

  /** From a clear flag, a sequence of calls none of which succeeds sends at most one
      error email, and exactly one when some call failed. */
  lemma {:induction false} FailuresSendOneEmail(runs: seq<RunKind>)
    requires forall k :: 0 <= k < |runs| ==> runs[k] != Succeeded
    ensures ErrorEmailCount(false, runs) == if Failed in runs then 1 else 0
    ensures FlagAfter(false, runs) <==> Failed in runs
    decreases |runs|
  {
    if |runs| > 0 {
      var prefix := runs[..|runs| - 1];
      FailuresSendOneEmail(prefix);
      assert Failed in runs <==> Failed in prefix || runs[|runs| - 1] == Failed;
    }
  }

  /** A success re-arms the throttle: the next failure sends an email again. */
  lemma SuccessRearms(flag: bool, before: seq<RunKind>, after: seq<RunKind>)
    ensures ErrorEmailCount(flag, before + [Succeeded, Failed] + after)
              >= ErrorEmailCount(flag, before) + 1
  {
    var runs := before + [Succeeded, Failed] + after;
    CountPrefix(flag, runs, |before| + 2);
    assert runs[..|before| + 2] == (before + [Succeeded, Failed]);
    assert (before + [Succeeded, Failed])[..|before| + 1] == before + [Succeeded];
    assert (before + [Succeeded])[..|before|] == before;
  }

  /** The count of a sequence is at least the count of any prefix. */
  lemma {:induction false} CountPrefix(flag: bool, runs: seq<RunKind>, n: int)
    requires 0 <= n <= |runs|
    ensures ErrorEmailCount(flag, runs[..n]) <= ErrorEmailCount(flag, runs)
    decreases |runs|
  {
    if n < |runs| {
      var prefix := runs[..|runs| - 1];
      assert prefix[..n] == runs[..n];
      CountPrefix(flag, prefix, n);
    } else {
      assert runs[..n] == runs;
    }
  }

  /** Two failures in a row from a clear flag send one email; failure, failure, success,
      failure sends two. */
  lemma ThrottleExamples()
    ensures ErrorEmailCount(false, [Failed, Failed]) == 1
    ensures ErrorEmailCount(false, [Failed, Failed, Succeeded, Failed]) == 2
    ensures ErrorEmailCount(false, [Failed, Rejected, Failed]) == 1
  {
    assert [Failed, Failed][..1] == [Failed];
    assert [Failed, Failed, Succeeded, Failed][..3] == [Failed, Failed, Succeeded];
    assert [Failed, Failed, Succeeded][..2] == [Failed, Failed];
    assert [Failed, Rejected, Failed][..2] == [Failed, Rejected];
    assert [Failed, Rejected][..1] == [Failed];
  }

  // ---------------------------------------------------------------------------
  // Messages of the exceptions raised before the `try`
  // ---------------------------------------------------------------------------

  /** The message for a missing file as the source writes it: the literal lacks the `f`
      prefix, so the braces are not replaced and every path gets the same text. */
  function MissingFileMessageAsWritten(path: string): string {
    "Image file {image_file} does not exist"
  }

  /** As written, the message is the same whatever the path. */
  lemma MissingFileMessageAsWrittenHidesPath(p: string, q: string)
    ensures MissingFileMessageAsWritten(p) == MissingFileMessageAsWritten(q)
  {
  }

  /** Two different missing paths that the message as written does not tell apart. */
  lemma MissingFileMessageAsWrittenExample()
    ensures "/ftp/cam1/a.jpg" != "/ftp/cam2/b.jpg"
    ensures MissingFileMessageAsWritten("/ftp/cam1/a.jpg") == MissingFileMessageAsWritten("/ftp/cam2/b.jpg")
  {
    MissingFileMessageAsWrittenHidesPath("/ftp/cam1/a.jpg", "/ftp/cam2/b.jpg");
  }

  /** The message as evidently intended: the path is part of it. */
  function MissingFileMessage(path: string): (m: string)
    ensures |m| == |path| + 26 && m[11..11 + |path|] == path
  {
    "Image file " + path + " does not exist"
  }

  /** With the path in the message, different paths give different messages. */
  lemma MissingFileMessageNamesPath(p: string, q: string)
    requires MissingFileMessage(p) == MissingFileMessage(q)
    ensures p == q
  {
    var m := MissingFileMessage(p);
    assert p == m[11..|m| - 15];
  }

  // ---------------------------------------------------------------------------
  // process_image
  // ---------------------------------------------------------------------------

  /** The files on disk, by path. */
  class Disk {
    var files: map<string, ImageFile>

    constructor(files: map<string, ImageFile>)
      ensures this.files == files
    {
      this.files := files;
    }

    /** `os.remove`: raises when there is no such file. */
    method Remove(path: string) returns (raised: Option<Error>)
      modifies this
      ensures path in old(files) ==> raised == None && files == old(files) - {path}
      ensures path !in old(files) ==> raised == Some(CannotRemoveFile(path)) && files == old(files)
    {
      if path !in files {
        return Some(CannotRemoveFile(path));
      }
      files := files - {path};
      raised := None;
    }
  }

  /** What one run receives from outside: the detection response, the clock reading
      used in the attachment name, the host name and the caption height. */
  datatype Inputs = Inputs(service: Option<seq<Label>>, timestamp: string, hostname: string, textHeight: int)

  /** The exception raised before the `try`, if any. */
  function Precheck(imageFile: Option<string>, files: map<string, ImageFile>): (r: Option<Error>)
    ensures r.None? <==> imageFile.Some? && imageFile.value in files
  {
    match imageFile
    case None => Some(NoImageFile)
    case Some(path) => if path !in files then Some(MissingImageFile(MissingFileMessageAsWritten(path))) else None
  }

  /** The kind of run a `process` outcome makes. */
  function KindOf(outcome: Result<Option<Email>, Error>): RunKind {
    if outcome.Ok? then Succeeded else Failed
  }

  /** The emails one entered run sends, given the flag before it. */
  function MailOf(flag: bool, outcome: Result<Option<Email>, Error>, hostname: string): (sent: seq<Email>)
    ensures outcome.Err? ==> (|sent| == 1 <==> SendsErrorEmail(flag, KindOf(outcome)))
  {
    match outcome
    case Err(_) => if !flag then [ErrorEmail(hostname)] else []
    case Ok(None) => []
    case Ok(Some(email)) => [email]
  }

  /** The state of `process.py` that `process_image` reads and writes. */
  class Processor {
    /** The module global `error_email_sent`. */
    var errorEmailSent: bool
    /** Every email handed to `send_email`, in order. */
    ghost var outbox: seq<Email>

    constructor()
      ensures !errorEmailSent && outbox == []
    {
      errorEmailSent := false;
      outbox := [];
    }

    /** `process_image(image_file, camera_name)`: returns the exception that escapes, if
        any. Exceptions from `process` are caught; the first of a run of them sends the
        error email. */
    method ProcessImage(imageFile: Option<string>, camera: string, cfg: Config, disk: Disk, inputs: Inputs)
      returns (raised: Option<Error>)
      modifies this
      ensures raised == Precheck(imageFile, disk.files)
      ensures raised.Some? ==> errorEmailSent == old(errorEmailSent) && outbox == old(outbox)
      ensures raised.None? ==>
                var outcome := ProcessOutcome(disk.files[imageFile.value], camera, cfg, inputs.service,
                                              inputs.timestamp, inputs.textHeight);
                errorEmailSent == NextFlag(old(errorEmailSent), KindOf(outcome))
                && outbox == old(outbox) + MailOf(old(errorEmailSent), outcome, inputs.hostname)
    {
      if imageFile.None? {
        return Some(NoImageFile);
      } else if imageFile.value !in disk.files {
        return Some(MissingImageFile(MissingFileMessageAsWritten(imageFile.value)));
      }
      var outcome := Process(disk.files[imageFile.value], camera, cfg, inputs.service,
                             inputs.timestamp, inputs.textHeight);
      match outcome {
        case Err(_) =>
          if !errorEmailSent {
            outbox := outbox + [ErrorEmail(inputs.hostname)];
            errorEmailSent := true;
          }
          return None;
        case Ok(sent) =>
          if sent.Some? {
            outbox := outbox + [sent.value];
          }
      }
      errorEmailSent := false;
      raised := None;
    }
  }
}
