/** KeyboardMonitorService: the moderation buffer fed by key presses, the key-log queue,
    and the start/stop guards. Keys are the virtual-key codes of
    System.Windows.Forms.Keys. */
module Keyboard {
  import opened Wrappers
  import opened Text
  import opened Workers

  // ---------------------------------------------------------------------------
  // Key codes
  // ---------------------------------------------------------------------------

  const Back := 8
  const Tab := 9
  const Enter := 13
  const ShiftKey := 16
  const ControlKey := 17
  const Menu := 18
  const CapsLock := 20
  const Space := 32
  const D0 := 48
  const D9 := 57
  const KeyA := 65
  const KeyZ := 90
  const LWin := 91
  const RWin := 92
  const NumLock := 144
  const Scroll := 145
  const Shift := 0x10000
  const Control := 0x20000
  const Alt := 0x40000

  /** Space, Enter and Tab end a word. */
  predicate IsDelimiter(key: int) {
    key == Space || key == Enter || key == Tab
  }

  /** The characters the moderation buffer can hold. */
  predicate IsBufferChar(c: char) {
    'a' <= c <= 'z' || '0' <= c <= '9'
  }

  predicate IsBuffer(s: string) {
    forall i :: 0 <= i < |s| ==> IsBufferChar(s[i])
  }

  /** The key that types `c`. */
  function KeyOfChar(c: char): int
    requires IsBufferChar(c)
  {
    if 'a' <= c <= 'z' then KeyA + (c as int - 'a' as int) else D0 + (c as int - '0' as int)
  }

  /** GetCharFromKey: A..Z give 'a'..'z', D0..D9 give '0'..'9', every other key '\0'. The
      character is typed by exactly that key. */
  function GetCharFromKey(key: int): (c: char)
    ensures c == '\0' || IsBufferChar(c)
    ensures c != '\0' <==> KeyA <= key <= KeyZ || D0 <= key <= D9
    ensures c != '\0' ==> KeyOfChar(c) == key
  {
    if KeyA <= key <= KeyZ then ('a' as int + (key - KeyA)) as char
    else if D0 <= key <= D9 then ('0' as int + (key - D0)) as char
    else '\0'
  }

  /** IsSpecialKey: the modifier and lock keys. None of them types a character, ends a
      word or erases. */
  function IsSpecialKey(key: int): (r: bool)
    ensures r ==> GetCharFromKey(key) == '\0' && !IsDelimiter(key) && key != Back
  {
    key == Control || key == ControlKey || key == Alt || key == Menu ||
    key == Shift || key == ShiftKey || key == LWin || key == RWin ||
    key == CapsLock || key == NumLock || key == Scroll
  }

  /** Every buffer character is typed by its key. */
  lemma {:induction false} KeyTypesChar(c: char)
    requires IsBufferChar(c)
    ensures GetCharFromKey(KeyOfChar(c)) == c
    ensures !IsDelimiter(KeyOfChar(c)) && KeyOfChar(c) != Back && !IsSpecialKey(KeyOfChar(c))
  {
  }

  // ---------------------------------------------------------------------------
  // The moderation buffer
  // ---------------------------------------------------------------------------

  /** The buffer after one key: a delimiter empties it, Back drops its last character,
      a letter or digit key appends its character, and every other key leaves it. */
  function NextBuffer(buffer: string, key: int): string {
    if IsDelimiter(key) then []
    else if key == Back then (if |buffer| > 0 then buffer[..|buffer| - 1] else buffer)
    else if !IsSpecialKey(key) && GetCharFromKey(key) != '\0' then buffer + [GetCharFromKey(key)]
    else buffer
  }

  /** The buffer only ever holds lower-case ASCII letters and digits. */
  lemma {:induction false} NextBufferKeepsChars(buffer: string, key: int)
    requires IsBuffer(buffer)
    ensures IsBuffer(NextBuffer(buffer, key))
    ensures |NextBuffer(buffer, key)| <= |buffer| + 1
  {
    var r := NextBuffer(buffer, key);
    if !IsDelimiter(key) && key != Back && !IsSpecialKey(key) && GetCharFromKey(key) != '\0' {
      assert forall i :: 0 <= i < |buffer| ==> r[i] == buffer[i];
    }
  }

  /** Back right after a character key takes the character away again. */
  lemma {:induction false} BackUndoesChar(buffer: string, key: int)
    requires GetCharFromKey(key) != '\0'
    ensures NextBuffer(NextBuffer(buffer, key), Back) == buffer
  {
    assert !IsSpecialKey(key);
    var t := NextBuffer(buffer, key);
    assert t == buffer + [GetCharFromKey(key)];
    assert t[..|t| - 1] == buffer;
  }

  /** The keys that type `w`, one per character. */
  function KeysOf(w: string): (keys: seq<int>)
    requires IsBuffer(w)
    ensures |keys| == |w|
  {
    if w == [] then [] else [KeyOfChar(w[0])] + KeysOf(w[1..])
  }

  /** The buffer after a run of keys. */
  function Typed(buffer: string, keys: seq<int>): string
    decreases |keys|
  {
    if keys == [] then buffer else Typed(NextBuffer(buffer, keys[0]), keys[1..])
  }

  /** Typing the keys of a word appends exactly the word. */
  lemma {:induction false} TypingAppendsWord(buffer: string, w: string)
    requires IsBuffer(w)
    ensures Typed(buffer, KeysOf(w)) == buffer + w
    decreases |w|
  {
    if w != [] {
      KeyTypesChar(w[0]);
      assert NextBuffer(buffer, KeyOfChar(w[0])) == buffer + [w[0]];
      TypingAppendsWord(buffer + [w[0]], w[1..]);
      assert buffer + [w[0]] + w[1..] == buffer + w;
    }
  }

  /** Lower-casing the buffer leaves it as it is. */
  lemma {:induction false} LowerOfBuffer(buffer: string)
    requires IsBuffer(buffer)
    ensures Lower(buffer) == buffer
  {
  }

  /** The first word, in list order, whose lower-case form occurs in `text` (ordinal
      substring search, not whole words). */
  function FirstForbidden(text: string, words: seq<string>): Option<string> {
    if words == [] then None
    else if Contains(text, Lower(words[0])) then Some(words[0])
    else FirstForbidden(text, words[1..])
  }

  /** No word is reported exactly when none occurs. */
  lemma {:induction false} FirstForbiddenNone(text: string, words: seq<string>)
    ensures FirstForbidden(text, words).None? <==>
              forall k :: 0 <= k < |words| ==> !Contains(text, Lower(words[k]))
  {
    if words != [] && !Contains(text, Lower(words[0])) {
      FirstForbiddenNone(text, words[1..]);
      assert forall k :: 0 < k < |words| ==> words[k] == words[1..][k - 1];
    }
  }

  /** A reported word occurs, and every word before it in the list does not. */
  lemma {:induction false} FirstForbiddenFirst(text: string, words: seq<string>) returns (i: nat)
    requires FirstForbidden(text, words).Some?
    ensures i < |words| && words[i] == FirstForbidden(text, words).value
    ensures Contains(text, Lower(words[i]))
    ensures forall j :: 0 <= j < i ==> !Contains(text, Lower(words[j]))
  {
    if Contains(text, Lower(words[0])) {
      i := 0;
    } else {
      var k := FirstForbiddenFirst(text, words[1..]);
      i := k + 1;
      assert forall j :: 0 < j < i ==> words[j] == words[1..][j - 1];
    }
  }

  /** What a key reports: on a delimiter, the first forbidden word in the lower-cased
      buffer; otherwise nothing. */
  function Detected(buffer: string, key: int, words: seq<string>): Option<string> {
    if IsDelimiter(key) then FirstForbidden(Lower(buffer), words) else None
  }

  /** Typing a word that contains the first listed forbidden word (in lower case) and
      then Space reports that word. */
  lemma {:induction false} TypedWordReported(w: string, words: seq<string>)
    requires IsBuffer(w) && words != [] && Contains(w, Lower(words[0]))
    ensures Detected(Typed([], KeysOf(w)), Space, words) == Some(words[0])
  {
    TypingAppendsWord([], w);
    assert [] + w == w;
    LowerOfBuffer(w);
  }

  // ---------------------------------------------------------------------------
  // The service
  // ---------------------------------------------------------------------------

  /** One line of the key log (the timestamp is not modelled). */
  datatype KeyLogEntry = KeyLogEntry(key: int, isSpecialKey: bool)

  /** A moderation report, written together with the ForbiddenWordDetected event. */
  datatype ModerationReport = ModerationReport(text: string, word: string)

  /** The task `Task.Run(() => LoggingWorker(token))` gives. On a live token the worker
      loops. On the cancelled token of a restarted service it still drains a non-empty
      queue, then reaches its cancelled Task.Delay; with an empty queue it ends at once. */
  function NewLoggingTask(cancelled: bool, queue: seq<KeyLogEntry>): WorkerTask {
    if !cancelled then Running else if queue == [] then Ended else Canceled
  }

  class KeyboardMonitorService {
    var isMonitoring: bool
    var keyQueue: seq<KeyLogEntry>
    var currentText: string
    var reportPath: string
    var forbiddenWords: seq<string>
    var enableStatistics: bool
    var enableModeration: bool
    /** The reports created and events raised so far. */
    var reports: seq<ModerationReport>
    /** The lines appended to the key-log file so far. */
    var keyLog: seq<KeyLogEntry>
    /** The one CancellationTokenSource, created with the service and never renewed. */
    var cancellationRequested: bool
    var loggingTask: WorkerTask

    predicate Valid()
      reads this
    {
      IsBuffer(currentText)
    }

    constructor ()
      ensures Valid() && !isMonitoring && keyQueue == [] && currentText == []
      ensures reportPath == [] && forbiddenWords == [] && enableStatistics && !enableModeration
      ensures reports == [] && keyLog == [] && !cancellationRequested && loggingTask == NoTask
    {
      isMonitoring := false;
      keyQueue := [];
      currentText := [];
      reportPath := [];
      forbiddenWords := [];
      enableStatistics := true;
      enableModeration := false;
      reports := [];
      keyLog := [];
      cancellationRequested := false;
      loggingTask := NoTask;
    }

    /** Whether Stop would throw: `_loggingTask?.Wait` sees a Canceled task once the
        token is cancelled. */
    predicate StopThrows()
      reads this
    {
      isMonitoring && WaitThrows(AfterCancel(loggingTask))
    }

    /** Start: ignored while monitoring; otherwise takes the settings, creates the report
        directory (`directoryOk`: whether it exists or can be created; otherwise the call
        throws before monitoring begins) and begins, starting the logging worker with
        statistics on. */
    method Start(path: string, words: seq<string>, statistics: bool, moderation: bool,
                 directoryOk: bool) returns (threw: bool)
      modifies this
      ensures old(isMonitoring) ==> unchanged(this) && !threw
      ensures threw <==> !old(isMonitoring) && !directoryOk
      ensures !old(isMonitoring) ==>
                reportPath == path && forbiddenWords == words &&
                enableStatistics == statistics && enableModeration == moderation
      ensures threw ==> !isMonitoring && loggingTask == old(loggingTask)
      ensures !old(isMonitoring) && !threw ==>
                isMonitoring &&
                loggingTask == (if statistics then NewLoggingTask(cancellationRequested, keyQueue)
                                else old(loggingTask))
      ensures keyQueue == old(keyQueue) && currentText == old(currentText)
      ensures reports == old(reports) && keyLog == old(keyLog)
      ensures cancellationRequested == old(cancellationRequested)
    {
      if isMonitoring {
        return false;
      }
      reportPath := path;
      forbiddenWords := words;
      enableStatistics := statistics;
      enableModeration := moderation;
      if !directoryOk {
        return true;
      }
      isMonitoring := true;
      if statistics {
        loggingTask := NewLoggingTask(cancellationRequested, keyQueue);
      }
      threw := false;
    }

    /** Stop: ignored while not monitoring; otherwise ends monitoring, cancels the token
        and waits for the logging worker. When that wait throws, the queue is left as it
        is; otherwise it is flushed (`writeOk`: whether the append to the log file
        succeeds). */
    method Stop(writeOk: bool) returns (threw: bool)
      modifies this
      ensures !old(isMonitoring) ==> unchanged(this) && !threw
      ensures threw <==> old(StopThrows())
      ensures old(isMonitoring) ==>
                !isMonitoring && cancellationRequested && loggingTask == AfterCancel(old(loggingTask))
      ensures threw ==> keyQueue == old(keyQueue) && keyLog == old(keyLog)
      ensures old(isMonitoring) && !threw ==>
                keyQueue == [] && keyLog == old(keyLog) + (if writeOk then old(keyQueue) else [])
      ensures currentText == old(currentText) && reports == old(reports)
      ensures forbiddenWords == old(forbiddenWords) && enableModeration == old(enableModeration)
      ensures enableStatistics == old(enableStatistics) && reportPath == old(reportPath)
    {
      if !isMonitoring {
        return false;
      }
      isMonitoring := false;
      cancellationRequested := true;
      loggingTask := AfterCancel(loggingTask);
      if WaitThrows(loggingTask) {
        return true;
      }
      FlushQueue(writeOk);
      threw := false;
    }

    /** OnKeyPressed: ignored while not monitoring; otherwise queues the key for the log
        and, with moderation on, feeds it to the buffer. */
    method OnKeyPressed(key: int)
      requires Valid()
      modifies this
      ensures Valid()
      ensures !old(isMonitoring) ==> unchanged(this)
      ensures old(isMonitoring) ==> keyQueue == old(keyQueue) + [KeyLogEntry(key, IsSpecialKey(key))]
      ensures old(isMonitoring) && enableModeration ==>
                currentText == NextBuffer(old(currentText), key) &&
                reports == old(reports) + Reported(old(currentText), key, forbiddenWords)
      ensures !enableModeration ==> currentText == old(currentText) && reports == old(reports)
      ensures isMonitoring == old(isMonitoring) && keyLog == old(keyLog)
      ensures forbiddenWords == old(forbiddenWords) && enableModeration == old(enableModeration)
      ensures reportPath == old(reportPath) && enableStatistics == old(enableStatistics)
      ensures cancellationRequested == old(cancellationRequested) && loggingTask == old(loggingTask)
    {
      if !isMonitoring {
        return;
      }
      keyQueue := keyQueue + [KeyLogEntry(key, IsSpecialKey(key))];
      if enableModeration {
        ProcessKeyForModeration(key);
      }
    }

    /** The report a key produces, if any. */
    static function Reported(buffer: string, key: int, words: seq<string>): seq<ModerationReport> {
      var d := Detected(buffer, key, words);
      if d.Some? then [ModerationReport(Lower(buffer), d.value)] else []
    }

    /** ProcessKeyForModeration: the buffer moves to NextBuffer, and a delimiter reports
        the first forbidden word found in the buffer. */
    method ProcessKeyForModeration(key: int)
      requires Valid()
      modifies this
      ensures Valid()
      ensures currentText == NextBuffer(old(currentText), key)
      ensures reports == old(reports) + Reported(old(currentText), key, forbiddenWords)
      ensures isMonitoring == old(isMonitoring) && keyQueue == old(keyQueue) && keyLog == old(keyLog)
      ensures forbiddenWords == old(forbiddenWords) && enableModeration == old(enableModeration)
      ensures reportPath == old(reportPath) && enableStatistics == old(enableStatistics)
      ensures cancellationRequested == old(cancellationRequested) && loggingTask == old(loggingTask)
    {
      NextBufferKeepsChars(currentText, key);
      if IsDelimiter(key) {
        var text := Lower(currentText);
        var i := 0;
        while i < |forbiddenWords|
          invariant 0 <= i <= |forbiddenWords|
          invariant FirstForbidden(text, forbiddenWords[i..]) == FirstForbidden(text, forbiddenWords)
          invariant reports == old(reports) && currentText == old(currentText)
        {
          var word := forbiddenWords[i];
          assert forbiddenWords[i..][1..] == forbiddenWords[i + 1..];
          if Contains(text, Lower(word)) {
            reports := reports + [ModerationReport(text, word)];
            currentText := [];
            return;
          }
          i := i + 1;
        }
        currentText := [];
      } else if key == Back {
        if |currentText| > 0 {
          currentText := currentText[..|currentText| - 1];
        }
      } else if !IsSpecialKey(key) {
        var c := GetCharFromKey(key);
        if c != '\0' {
          currentText := currentText + [c];
        }
      }
    }

    /** The drain under the lock: dequeues every entry, oldest first. */
    method Drain() returns (entries: seq<KeyLogEntry>)
      modifies this
      ensures entries == old(keyQueue) && keyQueue == []
      ensures isMonitoring == old(isMonitoring) && currentText == old(currentText)
      ensures reports == old(reports) && keyLog == old(keyLog)
      ensures forbiddenWords == old(forbiddenWords) && enableModeration == old(enableModeration)
      ensures enableStatistics == old(enableStatistics) && reportPath == old(reportPath)
      ensures cancellationRequested == old(cancellationRequested) && loggingTask == old(loggingTask)
    {
      entries := [];
      while |keyQueue| > 0
        invariant entries + keyQueue == old(keyQueue)
        invariant isMonitoring == old(isMonitoring) && currentText == old(currentText)
        invariant reports == old(reports) && keyLog == old(keyLog)
        invariant forbiddenWords == old(forbiddenWords) && enableModeration == old(enableModeration)
        invariant enableStatistics == old(enableStatistics) && reportPath == old(reportPath)
        invariant cancellationRequested == old(cancellationRequested) && loggingTask == old(loggingTask)
        decreases |keyQueue|
      {
        assert entries + [keyQueue[0]] + keyQueue[1..] == entries + keyQueue;
        entries := entries + [keyQueue[0]];
        keyQueue := keyQueue[1..];
      }
    }

    /** FlushQueue (and one pass of LoggingWorker): drain the queue and append the
        entries to the log; a failed write loses them. */
    method FlushQueue(writeOk: bool)
      modifies this
      ensures keyQueue == [] && keyLog == old(keyLog) + (if writeOk then old(keyQueue) else [])
      ensures isMonitoring == old(isMonitoring) && currentText == old(currentText)
      ensures reports == old(reports)
      ensures forbiddenWords == old(forbiddenWords) && enableModeration == old(enableModeration)
      ensures enableStatistics == old(enableStatistics) && reportPath == old(reportPath)
      ensures cancellationRequested == old(cancellationRequested) && loggingTask == old(loggingTask)
    {
      var entries := Drain();
      if |entries| > 0 && writeOk {
        keyLog := keyLog + entries;
      }
    }
  }

  /** A first session with statistics on: whatever keys are pressed between Start and
      Stop, the logging worker is still running when the token turns, so the Stop that
      ends the session throws. */
  method FirstSessionWithStatistics(path: string, words: seq<string>, moderation: bool,
                                    directoryOk: bool, keys: seq<int>, writeOk: bool)
    returns (startThrew: bool, stopThrew: bool)
    ensures startThrew <==> !directoryOk
    ensures stopThrew <==> directoryOk
  {
    var service := new KeyboardMonitorService();
    startThrew := service.Start(path, words, true, moderation, directoryOk);
    var i := 0;
    while i < |keys|
      invariant 0 <= i <= |keys|
      invariant service.Valid() && service.isMonitoring == directoryOk
      invariant service.isMonitoring ==> service.loggingTask == Running
    {
      service.OnKeyPressed(keys[i]);
      i := i + 1;
    }
    stopThrew := service.Stop(writeOk);
  }
}
