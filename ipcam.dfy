/** `ImageProcessingHandler` of ipcam_analysis.py: what happens when an FTP upload
    completes. */
module IpcamAnalysis {
  import opened Wrappers
  import opened Pipeline
  import opened Controller
  import opened TimeWindow

  /** The handler of one FTP session, over the window and the removal setting taken
      from the configuration at start-up. */
  class ImageProcessingHandler {
    const username: string
    const processor: Processor
    const disk: Disk
    const windowStart: Option<TimeOfDay>
    const windowEnd: Option<TimeOfDay>
    /** `ftp_server.remove_files`. */
    const removeFiles: bool

    constructor(username: string, processor: Processor, disk: Disk,
                windowStart: Option<TimeOfDay>, windowEnd: Option<TimeOfDay>, removeFiles: bool)
      ensures this.username == username && this.processor == processor && this.disk == disk
      ensures this.windowStart == windowStart && this.windowEnd == windowEnd && this.removeFiles == removeFiles
    {
      this.username := username;
      this.processor := processor;
      this.disk := disk;
      this.windowStart := windowStart;
      this.windowEnd := windowEnd;
      this.removeFiles := removeFiles;
    }

    /** `on_file_received(file)` at time of day `now`: the file is processed only inside
        the window, and removed when configured whether or not it was processed. An
        exception escaping `process_image` skips the removal; removing a file that is
        not there raises. */
    method OnFileReceived(file: string, now: TimeOfDay, cfg: Config, inputs: Inputs)
      returns (raised: Option<Error>)
      modifies processor, disk
      ensures var active := CheckTimeWindow(windowStart, windowEnd, now);
              var rejected := if active then Precheck(Some(file), old(disk.files)) else None;
              raised == (if rejected.Some? then rejected
                         else if removeFiles && file !in old(disk.files) then Some(CannotRemoveFile(file))
                         else None)
              && disk.files == (if rejected.None? && removeFiles then old(disk.files) - {file} else old(disk.files))
      ensures !CheckTimeWindow(windowStart, windowEnd, now) ==>
                processor.errorEmailSent == old(processor.errorEmailSent) && processor.outbox == old(processor.outbox)
      ensures CheckTimeWindow(windowStart, windowEnd, now) && file !in old(disk.files) ==>
                processor.errorEmailSent == old(processor.errorEmailSent) && processor.outbox == old(processor.outbox)
      ensures CheckTimeWindow(windowStart, windowEnd, now) && file in old(disk.files) ==>
                var outcome := ProcessOutcome(old(disk.files)[file], username, cfg, inputs.service,
                                              inputs.timestamp, inputs.textHeight);
                processor.errorEmailSent == NextFlag(old(processor.errorEmailSent), KindOf(outcome))
                && processor.outbox == old(processor.outbox) + MailOf(old(processor.errorEmailSent), outcome, inputs.hostname)
    {
      if CheckTimeWindow(windowStart, windowEnd, now) {
        raised := processor.ProcessImage(Some(file), username, cfg, disk, inputs);
        if raised.Some? {
          return;
        }
      }
      if removeFiles {
        raised := disk.Remove(file);
      } else {
        raised := None;
      }
    }
  }
}
