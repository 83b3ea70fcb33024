/** The user monitor's main window: the settings form, starting and stopping the two
    monitors, the four statistics counters and the type shown for each report file. */
module MonitorWindow {
  import opened Text
  import opened Keyboard
  import opened ProcessMonitor
  import opened Workers

  // ---------------------------------------------------------------------------
  // Report types
  // ---------------------------------------------------------------------------

  const KeyLogType: string := "Лог клавиатуры"
  const ProcessLogType: string := "Лог процессов"
  const ModerationType: string := "Отчет модерации"
  const OtherType: string := "Другой"

  /** GetReportType: the first of "KeyLog", "ProcessLog" and "ModerationReport" that the
      file name contains decides the type; a name with none of them is "other". */
  function ReportType(fileName: string): (r: string)
    ensures r in {KeyLogType, ProcessLogType, ModerationType, OtherType}
    ensures r == KeyLogType <==> Contains(fileName, "KeyLog")
    ensures r == ProcessLogType <==>
              !Contains(fileName, "KeyLog") && Contains(fileName, "ProcessLog")
    ensures r == ModerationType <==>
              !Contains(fileName, "KeyLog") && !Contains(fileName, "ProcessLog") &&
              Contains(fileName, "ModerationReport")
  {
    if Contains(fileName, "KeyLog") then KeyLogType
    else if Contains(fileName, "ProcessLog") then ProcessLogType
    else if Contains(fileName, "ModerationReport") then ModerationType
    else OtherType
  }

  predicate AllDigits(s: string) {
    forall i :: 0 <= i < |s| ==> '0' <= s[i] <= '9'
  }

  lemma {:induction false} DigitsAreNotCapitals(s: string)
    requires AllDigits(s)
    ensures 'K' !in s && 'P' !in s
  {
  }

  /** The daily key log "KeyLog_yyyyMMdd.txt" written by the keyboard monitor is listed
      as a key log. */
  lemma {:induction false} KeyLogFileTyped(date: string)
    ensures ReportType("KeyLog" + ("_" + date + ".txt")) == KeyLogType
  {
    ContainsAtStart("KeyLog", "_" + date + ".txt");
  }

  /** The daily process log "ProcessLog_yyyyMMdd.txt" written by the process monitor is
      listed as a process log. */
  lemma {:induction false} ProcessLogFileTyped(date: string)
    requires AllDigits(date)
    ensures ReportType("ProcessLog" + ("_" + date + ".txt")) == ProcessLogType
  {
    var rest := "_" + date + ".txt";
    assert !Contains("ProcessLog" + rest, "KeyLog") by {
      DigitsAreNotCapitals(date);
      assert 'K' !in "ProcessLog" && 'K' !in "_" && 'K' !in ".txt";
      NotContainedWithoutFirstChar("ProcessLog" + rest, "KeyLog");
    }
    ContainsAtStart("ProcessLog", rest);
  }

  /** Each moderation report "ModerationReport_yyyyMMdd_HHmmss.txt" written by either
      monitor is listed as a moderation report. */
  lemma {:induction false} ModerationFileTyped(date: string, time: string)
    requires AllDigits(date) && AllDigits(time)
    ensures ReportType("ModerationReport" + ("_" + date + "_" + time + ".txt")) == ModerationType
  {
    var rest := "_" + date + "_" + time + ".txt";
    var name := "ModerationReport" + rest;
    assert 'K' !in name && 'P' !in name by {
      DigitsAreNotCapitals(date);
      DigitsAreNotCapitals(time);
      assert 'K' !in "ModerationReport" && 'P' !in "ModerationReport";
      assert 'K' !in "_" && 'P' !in "_" && 'K' !in ".txt" && 'P' !in ".txt";
    }
    NotContainedWithoutFirstChar(name, "KeyLog");
    NotContainedWithoutFirstChar(name, "ProcessLog");
    ContainsAtStart("ModerationReport", rest);
  }

  // ---------------------------------------------------------------------------
  // Settings
  // ---------------------------------------------------------------------------

  datatype MonitorSettings = MonitorSettings(
    enableStatistics: bool,
    enableModeration: bool,
    reportPath: string,
    forbiddenWords: seq<string>,
    forbiddenPrograms: seq<string>)

  /** The settings a new MonitorSettings holds. */
  const DefaultSettings := MonitorSettings(true, false, "C:\\UserMonitorReports", [], [])

  /** SaveSettings_Click: the form's check boxes and path taken as they are, each list
      text box read one item per line. */
  function SettingsFromForm(statistics: bool, moderation: bool, path: string,
                            wordsText: string, programsText: string): (r: MonitorSettings)
    ensures r.enableStatistics == statistics && r.enableModeration == moderation
    ensures r.reportPath == path
    ensures forall k :: 0 <= k < |r.forbiddenWords| ==>
              r.forbiddenWords[k] != [] && IsTrimmed(r.forbiddenWords[k])
    ensures forall k :: 0 <= k < |r.forbiddenPrograms| ==>
              r.forbiddenPrograms[k] != [] && IsTrimmed(r.forbiddenPrograms[k])
  {
    MonitorSettings(statistics, moderation, path, ParseList(wordsText), ParseList(programsText))
  }

  /** Saving the form right after a list was loaded from a file stores that list as the
      file gave it, in the same order. */
  lemma {:induction false} SavedListsFromFiles(statistics: bool, moderation: bool, path: string,
                                               words: seq<string>, programs: seq<string>)
    requires forall k :: 0 <= k < |words| ==>
               words[k] != [] && IsTrimmed(words[k]) && '\r' !in words[k] && '\n' !in words[k]
    requires forall k :: 0 <= k < |programs| ==>
               programs[k] != [] && IsTrimmed(programs[k]) && '\r' !in programs[k] && '\n' !in programs[k]
    ensures SettingsFromForm(statistics, moderation, path, JoinLines(words), JoinLines(programs))
            == MonitorSettings(statistics, moderation, path, words, programs)
  {
    LoadedListRoundTrip(words);
    LoadedListRoundTrip(programs);
  }

  // ---------------------------------------------------------------------------
  // The window
  // ---------------------------------------------------------------------------

  class MainWindow {
    var settings: MonitorSettings
    var keyboardMonitor: KeyboardMonitorService?
    var processMonitor: ProcessMonitorService?
    var keysPressedCount: int
    var processesStartedCount: int
    var forbiddenWordsDetected: int
    var blockedProcessesCount: int
    /** Whether the Start button is disabled and Stop enabled. */
    var monitoring: bool

    constructor (loaded: MonitorSettings)
      ensures settings == loaded && keyboardMonitor == null && processMonitor == null
      ensures keysPressedCount == 0 && processesStartedCount == 0
      ensures forbiddenWordsDetected == 0 && blockedProcessesCount == 0 && !monitoring
    {
      settings := loaded;
      keyboardMonitor := null;
      processMonitor := null;
      keysPressedCount := 0;
      processesStartedCount := 0;
      forbiddenWordsDetected := 0;
      blockedProcessesCount := 0;
      monitoring := false;
    }

    method SaveSettingsClick(statistics: bool, moderation: bool, path: string,
                             wordsText: string, programsText: string)
      modifies this
      ensures settings == SettingsFromForm(statistics, moderation, path, wordsText, programsText)
      ensures keyboardMonitor == old(keyboardMonitor) && processMonitor == old(processMonitor)
      ensures keysPressedCount == old(keysPressedCount) && processesStartedCount == old(processesStartedCount)
      ensures forbiddenWordsDetected == old(forbiddenWordsDetected)
      ensures blockedProcessesCount == old(blockedProcessesCount) && monitoring == old(monitoring)
    {
      settings := SettingsFromForm(statistics, moderation, path, wordsText, programsText);
    }

    /** StartMonitoring_Click: a blank report path refuses with nothing changed. Otherwise,
        when statistics or moderation is on, each monitor is created, stored and started;
        a report directory that cannot be created (`directoryOk` false) makes the keyboard
        monitor's Start throw, and the catch leaves the rest undone. Then the window turns
        to monitoring and the four counters are reset. */
    method StartMonitoring(directoryOk: bool) returns (started: bool)
      modifies this
      ensures started <==>
                !IsBlank(settings.reportPath) &&
                (directoryOk || !(settings.enableStatistics || settings.enableModeration))
      ensures IsBlank(settings.reportPath) ==> unchanged(this)
      ensures settings == old(settings)
      ensures !started ==>
                monitoring == old(monitoring) && processMonitor == old(processMonitor) &&
                keysPressedCount == old(keysPressedCount) &&
                processesStartedCount == old(processesStartedCount) &&
                forbiddenWordsDetected == old(forbiddenWordsDetected) &&
                blockedProcessesCount == old(blockedProcessesCount)
      ensures !IsBlank(settings.reportPath) && !started ==>
                keyboardMonitor != null && fresh(keyboardMonitor) && !keyboardMonitor.isMonitoring
      ensures started ==>
                monitoring && keysPressedCount == 0 && processesStartedCount == 0 &&
                forbiddenWordsDetected == 0 && blockedProcessesCount == 0
      ensures started && (settings.enableStatistics || settings.enableModeration) ==>
                keyboardMonitor != null && fresh(keyboardMonitor) && keyboardMonitor.isMonitoring &&
                keyboardMonitor.reportPath == settings.reportPath &&
                keyboardMonitor.forbiddenWords == settings.forbiddenWords &&
                keyboardMonitor.enableStatistics == settings.enableStatistics &&
                keyboardMonitor.enableModeration == settings.enableModeration &&
                (keyboardMonitor.StopThrows() <==> settings.enableStatistics)
      ensures started && (settings.enableStatistics || settings.enableModeration) ==>
                processMonitor != null && fresh(processMonitor) && processMonitor.isMonitoring &&
                processMonitor.reportPath == settings.reportPath &&
                processMonitor.forbiddenPrograms == settings.forbiddenPrograms &&
                processMonitor.enableStatistics == settings.enableStatistics &&
                processMonitor.enableModeration == settings.enableModeration &&
                processMonitor.StopThrows()
      ensures !(settings.enableStatistics || settings.enableModeration) ==>
                keyboardMonitor == old(keyboardMonitor) && processMonitor == old(processMonitor)
    {
      if IsBlank(settings.reportPath) {
        return false;
      }
      if settings.enableStatistics || settings.enableModeration {
        var keyboard := new KeyboardMonitorService();
        keyboardMonitor := keyboard;
        var threw := keyboard.Start(settings.reportPath, settings.forbiddenWords,
                                    settings.enableStatistics, settings.enableModeration, directoryOk);
        if threw {
          return false;
        }
      }
      if settings.enableStatistics || settings.enableModeration {
        var processes := new ProcessMonitorService();
        processMonitor := processes;
        var threw := processes.Start(settings.reportPath, settings.forbiddenPrograms,
                                     settings.enableStatistics, settings.enableModeration, directoryOk);
      }
      monitoring := true;
      keysPressedCount := 0;
      processesStartedCount := 0;
      forbiddenWordsDetected := 0;
      blockedProcessesCount := 0;
      started := true;
    }

    /** StopMonitoring_Click: the keyboard monitor is stopped and dropped, then the process
        monitor, then the window leaves monitoring. A Stop that throws sends control to the
        catch, which skips the rest: the monitor that threw and everything after it stay
        as they are (`writeOk`: whether the keyboard monitor's final append to its log
        succeeds). */
    method StopMonitoring(writeOk: bool) returns (threw: bool)
      modifies this, keyboardMonitor, processMonitor
      ensures threw <==>
                old(keyboardMonitor != null && keyboardMonitor.StopThrows()) ||
                old(processMonitor != null && processMonitor.StopThrows())
      ensures !threw ==> keyboardMonitor == null && processMonitor == null && !monitoring
      ensures old(keyboardMonitor) != null ==> !old(keyboardMonitor).isMonitoring
      ensures old(keyboardMonitor != null && keyboardMonitor.StopThrows()) ==>
                keyboardMonitor == old(keyboardMonitor) && processMonitor == old(processMonitor) &&
                monitoring == old(monitoring) &&
                (processMonitor != null ==> unchanged(processMonitor))
      ensures !old(keyboardMonitor != null && keyboardMonitor.StopThrows()) ==>
                keyboardMonitor == null &&
                (old(processMonitor) != null ==> !old(processMonitor).isMonitoring)
      ensures !old(keyboardMonitor != null && keyboardMonitor.StopThrows()) &&
              old(processMonitor != null && processMonitor.StopThrows()) ==>
                processMonitor == old(processMonitor) && monitoring == old(monitoring)
      ensures var k := old(keyboardMonitor);
              k != null ==>
                (!old(k.isMonitoring) ==> unchanged(k)) &&
                (old(k.isMonitoring) ==>
                   k.cancellationRequested && k.loggingTask == AfterCancel(old(k.loggingTask))) &&
                (old(k.StopThrows()) ==> k.keyQueue == old(k.keyQueue) && k.keyLog == old(k.keyLog)) &&
                (old(k.isMonitoring) && !old(k.StopThrows()) ==>
                   k.keyQueue == [] && k.keyLog == old(k.keyLog) + (if writeOk then old(k.keyQueue) else [])) &&
                k.currentText == old(k.currentText) && k.reports == old(k.reports) &&
                k.forbiddenWords == old(k.forbiddenWords) && k.enableModeration == old(k.enableModeration) &&
                k.enableStatistics == old(k.enableStatistics) && k.reportPath == old(k.reportPath)
      ensures var p := old(processMonitor);
              p != null ==>
                (!old(p.isMonitoring) ==> unchanged(p)) &&
                (old(p.isMonitoring) && !old(keyboardMonitor != null && keyboardMonitor.StopThrows()) ==>
                   p.cancellationRequested && p.monitoringTask == AfterCancel(old(p.monitoringTask))) &&
                p.knownProcesses == old(p.knownProcesses) && p.logged == old(p.logged) &&
                p.blocked == old(p.blocked) && p.forbiddenPrograms == old(p.forbiddenPrograms) &&
                p.enableModeration == old(p.enableModeration) &&
                p.enableStatistics == old(p.enableStatistics) && p.reportPath == old(p.reportPath)
      ensures settings == old(settings)
      ensures keysPressedCount == old(keysPressedCount) && processesStartedCount == old(processesStartedCount)
      ensures forbiddenWordsDetected == old(forbiddenWordsDetected)
      ensures blockedProcessesCount == old(blockedProcessesCount)
    {
      if keyboardMonitor != null {
        var keyboardThrew := keyboardMonitor.Stop(writeOk);
        if keyboardThrew {
          return true;
        }
      }
      keyboardMonitor := null;
      if processMonitor != null {
        var processThrew := processMonitor.Stop();
        if processThrew {
          return true;
        }
      }
      processMonitor := null;
      monitoring := false;
      threw := false;
    }

    /** KeyboardMonitor_KeyPressed. */
    method KeyPressed()
      modifies this
      ensures keysPressedCount == old(keysPressedCount) + 1
      ensures processesStartedCount == old(processesStartedCount)
      ensures forbiddenWordsDetected == old(forbiddenWordsDetected)
      ensures blockedProcessesCount == old(blockedProcessesCount)
      ensures settings == old(settings) && monitoring == old(monitoring)
      ensures keyboardMonitor == old(keyboardMonitor) && processMonitor == old(processMonitor)
    {
      keysPressedCount := keysPressedCount + 1;
    }

    /** KeyboardMonitor_ForbiddenWordDetected. */
    method ForbiddenWordDetected()
      modifies this
      ensures forbiddenWordsDetected == old(forbiddenWordsDetected) + 1
      ensures keysPressedCount == old(keysPressedCount)
      ensures processesStartedCount == old(processesStartedCount)
      ensures blockedProcessesCount == old(blockedProcessesCount)
      ensures settings == old(settings) && monitoring == old(monitoring)
      ensures keyboardMonitor == old(keyboardMonitor) && processMonitor == old(processMonitor)
    {
      forbiddenWordsDetected := forbiddenWordsDetected + 1;
    }

    /** ProcessMonitor_ProcessStarted. */
    method ProcessStarted()
      modifies this
      ensures processesStartedCount == old(processesStartedCount) + 1
      ensures keysPressedCount == old(keysPressedCount)
      ensures forbiddenWordsDetected == old(forbiddenWordsDetected)
      ensures blockedProcessesCount == old(blockedProcessesCount)
      ensures settings == old(settings) && monitoring == old(monitoring)
      ensures keyboardMonitor == old(keyboardMonitor) && processMonitor == old(processMonitor)
    {
      processesStartedCount := processesStartedCount + 1;
    }

    /** ProcessMonitor_ForbiddenProcessDetected. */
    method ForbiddenProcessDetected()
      modifies this
      ensures blockedProcessesCount == old(blockedProcessesCount) + 1
      ensures keysPressedCount == old(keysPressedCount)
      ensures processesStartedCount == old(processesStartedCount)
      ensures forbiddenWordsDetected == old(forbiddenWordsDetected)
      ensures settings == old(settings) && monitoring == old(monitoring)
      ensures keyboardMonitor == old(keyboardMonitor) && processMonitor == old(processMonitor)
    {
      blockedProcessesCount := blockedProcessesCount + 1;
    }
  }
}
