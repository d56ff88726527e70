/**
 * The browser client's page state (frontend/js/script.js): the staged upload,
 * the two camera streams, the live-detection timer, the history with its
 * persisted copy, and the enabled/disabled state of the buttons that drive
 * them. Every event handler that changes this state is a method of
 * `ClientState`. Browser services are inputs: what `getUserMedia` grants, the
 * `/predict` response (`None` when the request failed), the confirm() answer,
 * the clock reading and the timer id.
 */
module Client {
  import opened Wrappers
  import opened History

  /** A file the user picked or dropped: its MIME type and its size in bytes. */
  datatype FileInfo = FileInfo(mimeType: string, size: nat)

  /** The MIME types the upload tab accepts. */
  const AcceptedTypes: seq<string> := ["image/jpeg", "image/jpg", "image/png"]

  /** The upload size limit, 20 MiB; a file of exactly this size is accepted. */
  const MaxUploadBytes: nat := 20 * 1024 * 1024

  /** The outcome of `handleFileSelect`'s two checks, type first. */
  datatype FileCheck = FileAccepted | WrongType | TooLarge

  function CheckFile(f: FileInfo): (c: FileCheck)
    ensures c == FileAccepted <==> f.mimeType in AcceptedTypes && f.size <= MaxUploadBytes
    ensures c == WrongType <==> f.mimeType !in AcceptedTypes
    ensures c == TooLarge <==> f.mimeType in AcceptedTypes && f.size > MaxUploadBytes
  {
    if f.mimeType !in AcceptedTypes then WrongType
    else if f.size > MaxUploadBytes then TooLarge
    else FileAccepted
  }

  /** The size limit is inclusive: 20 MiB passes, one byte more does not. */
  lemma SizeLimitBoundary()
    ensures CheckFile(FileInfo("image/png", 20971520)) == FileAccepted
    ensures CheckFile(FileInfo("image/png", 20971521)) == TooLarge
    ensures CheckFile(FileInfo("image/gif", 1)) == WrongType
  {
  }

  /** A camera stream as `getUserMedia` hands it out; only its identity matters. */
  datatype Stream = Stream(handle: nat)

  /** The page's three tabs; only the visible tab's buttons can be clicked. */
  datatype Tab = UploadTab | WebcamTab | LiveTab

  /** `setInterval` ids are positive, so the source's truthiness test on them is a null test. */
  type IntervalId = i: nat | i > 0 witness 1

  class ClientState {
    /** The tab whose content is shown. */
    var activeTab: Tab

    /** The staged upload (`currentFile`). */
    var currentFile: Option<FileInfo>
    var processEnabled: bool

    /** Single-shot webcam tab. */
    var webcamStream: Option<Stream>
    var startWebcamEnabled: bool
    var captureEnabled: bool
    var stopWebcamEnabled: bool

    /** Live-detection tab; `liveLabel` is `None` while the placeholder '-' shows. */
    var liveStream: Option<Stream>
    var liveInterval: Option<IntervalId>
    var startLiveEnabled: bool
    var stopLiveEnabled: bool
    var liveLabel: Option<string>

    /** `classificationHistory` and its copy in local storage (`None`: no key yet). */
    var history: seq<HistoryEntry>
    var stored: Option<seq<HistoryEntry>>

    /** Every stream the camera has granted, and those whose tracks were stopped. */
    ghost var acquired: set<Stream>
    ghost var released: set<Stream>

    /** The streams the page still holds. */
    ghost function Held(): set<Stream>
      reads this
    {
      (if webcamStream.Some? then {webcamStream.value} else {})
      + (if liveStream.Some? then {liveStream.value} else {})
    }

    /** The persisted copy equals the in-memory history once anything was saved. */
    ghost predicate Mirrored()
      reads this
    {
      stored == Some(history) || (stored.None? && history == [])
    }

    ghost predicate Valid()
      reads this
    {
      // the process button is enabled exactly while a file is staged
      && processEnabled == currentFile.Some?
      // webcam buttons follow the webcam stream
      && startWebcamEnabled == webcamStream.None?
      && captureEnabled == webcamStream.Some?
      && stopWebcamEnabled == webcamStream.Some?
      // live buttons, timer and label follow the live stream
      && startLiveEnabled == liveStream.None?
      && stopLiveEnabled == liveStream.Some?
      && liveInterval.Some? == liveStream.Some?
      && (liveStream.None? ==> liveLabel.None?)
      // no camera stream is leaked: every granted one is held or stopped
      && released <= acquired
      && acquired - released == Held()
      // a stream is held only on its own tab, so at most one camera session exists
      && (webcamStream.Some? ==> activeTab == WebcamTab)
      && (liveStream.Some? ==> activeTab == LiveTab)
      && !(webcamStream.Some? && liveStream.Some?)
      && Mirrored()
    }

    /** Page load: globals at their initial values, then `loadHistory`. */
    constructor (saved: Option<seq<HistoryEntry>>)
      ensures Valid()
      ensures activeTab == UploadTab
      ensures currentFile.None? && webcamStream.None? && liveStream.None? && liveInterval.None?
      ensures history == (if saved.Some? then saved.value else [])
      ensures stored == saved
      ensures acquired == {}
    {
      activeTab := UploadTab;
      currentFile := None;
      processEnabled := false;
      webcamStream := None;
      startWebcamEnabled, captureEnabled, stopWebcamEnabled := true, false, false;
      liveStream := None;
      liveInterval := None;
      startLiveEnabled, stopLiveEnabled := true, false;
      liveLabel := None;
      history := [];
      stored := saved;
      acquired, released := {}, {};
      new;
      LoadHistory();
    }

    /** `loadHistory`: adopt the persisted list when there is one. */
    method LoadHistory()
      modifies this`history
      ensures history == (if stored.Some? then stored.value else old(history))
      ensures stored.Some? ==> Mirrored()
    {
      if stored.Some? {
        history := stored.value;
      }
    }

    /** `saveHistory`: the persisted copy becomes the in-memory list. */
    method SaveHistory()
      modifies this`stored
      ensures stored == Some(history)
    {
      stored := Some(history);
    }

    /** `addToHistory`: prepend the entry, keep ten, persist. */
    method AddToHistory(result: ClassificationResult, id: int, timestamp: string)
      requires Valid()
      modifies this`history, this`stored
      ensures Valid()
      ensures history == Added(old(history), MakeEntry(result, id, timestamp))
      ensures |history| <= Capacity
      ensures history[0] == HistoryEntry(id, timestamp, result.predictedClass, result.confidence, result.isUncertain)
      ensures stored == Some(history)
    {
      var entry := MakeEntry(result, id, timestamp);
      history := [entry] + history;
      if |history| > Capacity {
        history := history[..Capacity];
      }
      SaveHistory();
    }

    /** The clear-history button: empties and persists only when the user confirms. */
    method ClearHistory(confirmed: bool)
      requires Valid()
      modifies this`history, this`stored
      ensures Valid()
      ensures confirmed ==> history == [] && stored == Some([])
      ensures !confirmed ==> history == old(history) && stored == old(stored)
    {
      if confirmed {
        history := [];
        SaveHistory();
      }
    }

    /** `handleFileSelect`: stage an accepted file; a rejected one changes nothing. */
    method HandleFileSelect(file: FileInfo)
      requires Valid()
      modifies this`currentFile, this`processEnabled
      ensures Valid()
      ensures CheckFile(file) == FileAccepted ==> currentFile == Some(file) && processEnabled
      ensures CheckFile(file) != FileAccepted ==>
                currentFile == old(currentFile) && processEnabled == old(processEnabled)
    {
      var check := CheckFile(file);
      if check == WrongType {
        return;
      }
      if check == TooLarge {
        return;
      }
      currentFile := Some(file);
      processEnabled := true;
    }

    /** The file-input change and drop handlers: only the first file, if any, is examined. */
    method ChooseFiles(files: seq<FileInfo>)
      requires Valid()
      modifies this`currentFile, this`processEnabled
      ensures Valid()
      ensures files == [] ==> currentFile == old(currentFile) && processEnabled == old(processEnabled)
      ensures files != [] && CheckFile(files[0]) == FileAccepted ==> currentFile == Some(files[0])
      ensures files != [] && CheckFile(files[0]) != FileAccepted ==> currentFile == old(currentFile)
    {
      if files != [] {
        HandleFileSelect(files[0]);
      }
    }

    /** The reset button: nothing staged, processing disabled. */
    method Reset()
      requires Valid()
      modifies this`currentFile, this`processEnabled
      ensures Valid()
      ensures currentFile.None? && !processEnabled
    {
      currentFile := None;
      processEnabled := false;
    }

    /**
     * The process button. Without a staged file it does nothing; otherwise a
     * successful response is recorded in the history, and a failed one
     * changes nothing, leaving the file staged for a retry.
     */
    method Process(response: Option<ClassificationResult>, id: int, timestamp: string)
      requires Valid()
      modifies this`history, this`stored
      ensures Valid()
      ensures currentFile.None? || response.None? ==> unchanged(this)
      ensures currentFile.Some? && response.Some? ==>
                history == Added(old(history), MakeEntry(response.value, id, timestamp))
                && stored == Some(history)
    {
      if currentFile.None? {
        return;
      }
      if response.Some? {
        AddToHistory(response.value, id, timestamp);
      }
    }

    /**
     * The start-webcam button, clickable only on the webcam tab and only
     * while enabled (a disabled button dispatches no click).
     * `granted` is what the camera request yields: a new stream, or `None`
     * when permission or hardware fails, which leaves everything as it was.
     */
    method StartWebcam(granted: Option<Stream>)
      requires Valid()
      requires granted.Some? ==> granted.value !in acquired
      modifies this`webcamStream, this`startWebcamEnabled, this`captureEnabled,
               this`stopWebcamEnabled, this`acquired
      ensures Valid()
      ensures activeTab != WebcamTab || !old(startWebcamEnabled) || granted.None? ==> unchanged(this)
      ensures activeTab == WebcamTab && old(startWebcamEnabled) && granted.Some? ==>
                && webcamStream == granted
                && !startWebcamEnabled && captureEnabled && stopWebcamEnabled
                && acquired == old(acquired) + {granted.value}
    {
      if activeTab != WebcamTab || !startWebcamEnabled {
        return;
      }
      match granted
      case None =>
      case Some(s) =>
        webcamStream := Some(s);
        acquired := acquired + {s};
        startWebcamEnabled, captureEnabled, stopWebcamEnabled := false, true, true;
    }

    /** The capture button: a successful classification of the frame goes into the history. */
    method Capture(response: Option<ClassificationResult>, id: int, timestamp: string)
      requires Valid()
      modifies this`history, this`stored
      ensures Valid()
      ensures !captureEnabled || response.None? ==> unchanged(this)
      ensures captureEnabled && response.Some? ==>
                history == Added(old(history), MakeEntry(response.value, id, timestamp))
                && stored == Some(history)
    {
      if !captureEnabled {
        return;
      }
      if response.Some? {
        AddToHistory(response.value, id, timestamp);
      }
    }

    /** `stopWebcam`: release the webcam stream if there is one; otherwise a no-op. */
    method StopWebcam()
      requires Valid()
      modifies this`webcamStream, this`startWebcamEnabled, this`captureEnabled,
               this`stopWebcamEnabled, this`released
      ensures Valid()
      ensures webcamStream.None? && startWebcamEnabled && !captureEnabled && !stopWebcamEnabled
      ensures old(webcamStream).None? ==> unchanged(this)
      ensures old(webcamStream).Some? ==> released == old(released) + {old(webcamStream).value}
    {
      if webcamStream.Some? {
        released := released + {webcamStream.value};
        webcamStream := None;
        startWebcamEnabled, captureEnabled, stopWebcamEnabled := true, false, false;
      }
    }

    /**
     * The start-live button, clickable only on the live tab and only while
     * enabled: on a granted stream, hold it and start the repeating timer
     * whose id is `interval`.
     */
    method StartLive(granted: Option<Stream>, interval: IntervalId)
      requires Valid()
      requires granted.Some? ==> granted.value !in acquired
      modifies this`liveStream, this`liveInterval, this`startLiveEnabled,
               this`stopLiveEnabled, this`acquired
      ensures Valid()
      ensures activeTab != LiveTab || !old(startLiveEnabled) || granted.None? ==> unchanged(this)
      ensures activeTab == LiveTab && old(startLiveEnabled) && granted.Some? ==>
                && liveStream == granted && liveInterval == Some(interval)
                && !startLiveEnabled && stopLiveEnabled
                && acquired == old(acquired) + {granted.value}
    {
      if activeTab != LiveTab || !startLiveEnabled {
        return;
      }
      match granted
      case None =>
      case Some(s) =>
        liveStream := Some(s);
        acquired := acquired + {s};
        startLiveEnabled, stopLiveEnabled := false, true;
        liveInterval := Some(interval);
    }

    /** `stopLiveDetection`: clear the timer, then release the live stream; idempotent. */
    method StopLive()
      requires Valid()
      modifies this`liveStream, this`liveInterval, this`startLiveEnabled,
               this`stopLiveEnabled, this`liveLabel, this`released
      ensures Valid()
      ensures liveStream.None? && liveInterval.None? && liveLabel.None?
      ensures startLiveEnabled && !stopLiveEnabled
      ensures old(liveStream).None? ==> unchanged(this)
      ensures old(liveStream).Some? ==> released == old(released) + {old(liveStream).value}
    {
      if liveInterval.Some? {
        liveInterval := None;
      }
      if liveStream.Some? {
        released := released + {liveStream.value};
        liveStream := None;
        startLiveEnabled, stopLiveEnabled := true, false;
        liveLabel := None;
      }
    }

    /**
     * One timer tick of live detection. Without a live stream it does
     * nothing; a successful response replaces the label, a failed one is
     * dropped. The history is never touched.
     */
    method LiveTick(response: Option<ClassificationResult>)
      requires Valid()
      modifies this`liveLabel
      ensures Valid()
      ensures liveStream.None? || response.None? ==> unchanged(this)
      ensures liveStream.Some? && response.Some? ==> liveLabel == Some(response.value.predictedClass)
    {
      if liveStream.None? {
        return;
      }
      if response.Some? {
        liveLabel := Some(response.value.predictedClass);
      }
    }

    /**
     * A tab button: show `tab`, then stop both streams and the timer. The
     * page-unload handler makes the same two stop calls.
     */
    method SwitchTab(tab: Tab)
      requires Valid()
      modifies this`activeTab, this`webcamStream, this`startWebcamEnabled, this`captureEnabled,
               this`stopWebcamEnabled, this`liveStream, this`liveInterval,
               this`startLiveEnabled, this`stopLiveEnabled, this`liveLabel, this`released
      ensures Valid()
      ensures activeTab == tab
      ensures webcamStream.None? && liveStream.None? && liveInterval.None?
      ensures acquired == released
    {
      // the handler is synchronous, so stopping before recording the new tab
      // is indistinguishable from the source's order
      StopWebcam();
      StopLive();
      activeTab := tab;
      assert acquired - released == Held() == {};
      forall x | x in acquired ensures x in released {
        assert x !in acquired - released;
      }
    }
  }

  /** A 25 MiB JPEG is refused: nothing is staged and the history stays empty. */
  method OversizedUploadScenario() returns (staged: bool, entries: nat)
    ensures !staged && entries == 0
  {
    var page := new ClientState(None);
    page.HandleFileSelect(FileInfo("image/jpeg", 25 * 1024 * 1024));
    staged := page.currentFile.Some?;
    entries := |page.history|;
  }

  /**
   * A 2 MB JPEG is staged and classified as plastic: the history gains one
   * entry for it, and the persisted copy matches.
   */
  method UploadScenario(id: int, timestamp: string) returns (entries: seq<HistoryEntry>, persisted: Option<seq<HistoryEntry>>)
    ensures |entries| == 1 && entries[0].predictedClass == "plastic" && entries[0].id == id
    ensures persisted == Some(entries)
  {
    var page := new ClientState(None);
    page.HandleFileSelect(FileInfo("image/jpeg", 2000000));
    page.Process(Some(ClassificationResult("plastic", 0.92, false)), id, timestamp);
    entries := page.history;
    persisted := page.stored;
  }

  /** Stopping the webcam twice is the same as stopping it once. */
  method StopTwiceScenario(s: Stream) returns (idle: bool, startEnabled: bool, captureDisabled: bool)
    ensures idle && startEnabled && captureDisabled
  {
    var page := new ClientState(None);
    page.SwitchTab(WebcamTab);
    page.StartWebcam(Some(s));
    page.StopWebcam();
    page.StopWebcam();
    idle := page.webcamStream.None?;
    startEnabled := page.startWebcamEnabled;
    captureDisabled := !page.captureEnabled;
  }

  /**
   * At most one camera session: with the webcam running, the live start
   * button is on a hidden tab, and reaching it stops the webcam first.
   */
  method OneCameraScenario(a: Stream, b: Stream) returns (webcamHeld: bool, liveHeld: bool, bothHeld: bool)
    requires a != b
    ensures webcamHeld && !liveHeld && !bothHeld
  {
    var page := new ClientState(None);
    page.SwitchTab(WebcamTab);
    page.StartWebcam(Some(a));
    page.StartLive(Some(b), 1);
    webcamHeld := page.webcamStream == Some(a);
    liveHeld := page.liveStream.Some?;
    page.SwitchTab(LiveTab);
    page.StartLive(Some(b), 1);
    bothHeld := page.webcamStream.Some? && page.liveStream.Some?;
  }
}
