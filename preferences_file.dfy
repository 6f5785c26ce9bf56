/** `PreferencesFile`: watches the Time Machine preferences file, debounces the
    change notifications, reparses the file and publishes the result to the
    shared store. The time, the file's contents and the outcome of each call
    into the system are parameters of the methods. */
module PreferencesFileModel {
  import opened Common
  import opened TimeMachinePreferences

  type Path = string

  /** A file URL; only its path matters here. */
  datatype Url = Url(path: Path)

  /** The one path whose events are forwarded (`URL.preferencesFile`). */
  const PREFERENCES_PATH: Path := "/Library/Preferences/com.apple.TimeMachine.plist"

  /** Seconds that must pass after an accepted change before the next one is accepted. */
  const COOLDOWN: real := 1.0

  /** Wall-clock time, in seconds. */
  type Time = real

  /** An `FSEventStreamRef`. */
  type StreamId = nat

  // ---------------------------------------------------------------------------
  // Debounce rule of handleFileChangedNotification

  /** What one notification does: whether it runs `process()`, and the new `lastChange`. */
  datatype DebounceStep = DebounceStep(process: bool, lastChange: Option<Time>)

  function Debounce(lastChange: Option<Time>, now: Time): (r: DebounceStep)
    // the first notification only records the time
    ensures lastChange.None? ==> !r.process && r.lastChange == Some(now)
    // later ones are accepted strictly after the cooldown, and then restart it
    ensures lastChange.Some? ==> (r.process <==> now - lastChange.value > COOLDOWN)
    ensures r.process ==> r.lastChange == Some(now)
    // a dropped notification leaves the window where it was
    ensures lastChange.Some? && !r.process ==> r.lastChange == lastChange
  {
    match lastChange
    case None => DebounceStep(false, Some(now))
    case Some(last) =>
      if now - last > COOLDOWN then DebounceStep(true, Some(now)) else DebounceStep(false, lastChange)
  }

  /** The times, among successive notifications at `times`, that run `process()`:
      a subsequence of `times`, so never more of them than there are notifications. */
  function Accepted(lastChange: Option<Time>, times: seq<Time>): (r: seq<Time>)
    ensures |r| <= |times|
    ensures forall j :: 0 <= j < |r| ==> r[j] in times
    decreases |times|
  {
    if times == [] then []
    else
      var step := Debounce(lastChange, times[0]);
      (if step.process then [times[0]] else []) + Accepted(step.lastChange, times[1..])
  }

  /** Every time in `times` lies in the window `[start, start + COOLDOWN]`. */
  ghost predicate Within(times: seq<Time>, start: Time) {
    forall i :: 0 <= i < |times| ==> start <= times[i] <= start + COOLDOWN
  }

  lemma WithinTail(times: seq<Time>, start: Time)
    requires times != [] && Within(times, start)
    ensures Within(times[1..], start)
  {
    forall i | 0 <= i < |times[1..]| ensures start <= times[1..][i] <= start + COOLDOWN {
      assert times[1..][i] == times[i + 1];
    }
  }

  /** Once a change inside the window has been recorded, nothing else in that window is accepted. */
  lemma {:induction false} QuietWindow(last: Time, times: seq<Time>, start: Time)
    requires start <= last <= start + COOLDOWN
    requires Within(times, start)
    ensures Accepted(Some(last), times) == []
    decreases |times|
  {
    if times != [] {
      WithinTail(times, start);
      QuietWindow(last, times[1..], start);
    }
  }

  /** However many notifications arrive within one cooldown window, at most one
      of them runs `process()`; none does when it holds the very first notification. */
  lemma {:induction false} AtMostOnePerWindow(lastChange: Option<Time>, times: seq<Time>, start: Time)
    requires Within(times, start)
    ensures |Accepted(lastChange, times)| <= 1
    ensures lastChange.None? ==> Accepted(lastChange, times) == []
    decreases |times|
  {
    if times != [] {
      var step := Debounce(lastChange, times[0]);
      WithinTail(times, start);
      if step.process || lastChange.None? {
        QuietWindow(times[0], times[1..], start);
      } else {
        AtMostOnePerWindow(lastChange, times[1..], start);
      }
    }
  }

  /** Two accepted changes are always more than the cooldown apart, and the
      first one is more than the cooldown after the recorded `lastChange`. */
  lemma {:induction false} AcceptedSpaced(lastChange: Option<Time>, times: seq<Time>)
    ensures var acc := Accepted(lastChange, times);
      && (lastChange.Some? && |acc| > 0 ==> acc[0] - lastChange.value > COOLDOWN)
      && forall j :: 0 < j < |acc| ==> acc[j] - acc[j - 1] > COOLDOWN
    decreases |times|
  {
    if times != [] {
      var step := Debounce(lastChange, times[0]);
      var rest := Accepted(step.lastChange, times[1..]);
      AcceptedSpaced(step.lastChange, times[1..]);
      if step.process {
        var acc := [times[0]] + rest;
        assert Accepted(lastChange, times) == acc;
        forall j | 0 < j < |acc| ensures acc[j] - acc[j - 1] > COOLDOWN {
          if j > 1 {
            assert acc[j] == rest[j - 1] && acc[j - 1] == rest[j - 2];
          }
        }
      } else {
        assert Accepted(lastChange, times) == rest;
      }
    }
  }

  // ---------------------------------------------------------------------------
  // Path filter of eventCallback

  /** Swift's `filter`: the elements that satisfy `p`, in order. */
  function Filter<T>(xs: seq<T>, p: T -> bool): (r: seq<T>)
    ensures |r| <= |xs|
    ensures forall i :: 0 <= i < |r| ==> p(r[i])
    decreases |xs|
  {
    if xs == [] then []
    else (if p(xs[0]) then [xs[0]] else []) + Filter(xs[1..], p)
  }

  /** `filter(...).isEmpty` holds exactly when no element satisfies `p`. */
  lemma {:induction false} FilterEmptyIff<T>(xs: seq<T>, p: T -> bool)
    ensures Filter(xs, p) == [] <==> forall i :: 0 <= i < |xs| ==> !p(xs[i])
    decreases |xs|
  {
    if xs != [] {
      FilterEmptyIff(xs[1..], p);
      if !p(xs[0]) {
        forall i | 0 < i < |xs| ensures p(xs[i]) == p(xs[1..][i - 1]) {
          assert xs[i] == xs[1..][i - 1];
        }
      }
    }
  }

  /** `eventCallback`: whether a batch of event paths is forwarded as a change
      notification; exactly when one of its paths is the preferences file's path. */
  function Forwards(paths: seq<Path>): (r: bool)
    ensures r <==> PREFERENCES_PATH in paths
  {
    FilterEmptyIff(paths, (q: Path) => q == PREFERENCES_PATH);
    Filter(paths, (q: Path) => q == PREFERENCES_PATH) != []
  }

  // ---------------------------------------------------------------------------
  // Parse-then-store rule of process()

  /** What the shared store holds after `process()`: the fresh parse when both
      the parse and `store()` succeed, and nothing (cleared) otherwise. */
  function Published(parsed: Option<Preferences>, stored: bool): (r: Option<Preferences>)
    ensures r.Some? <==> parsed.Some? && stored
    ensures r.Some? ==> r == parsed
  {
    if parsed.Some? && stored then parsed else None
  }

  /** What the user does with the open panel. */
  datatype PanelChoice = Cancelled | Chose(url: Url)

  class PreferencesFile {
    var url: Option<Url>
    var stream: Option<StreamId>
    var lastChange: Option<Time>
    /** The preferences in the shared store (`Preferences.store()`/`clear()`); None when cleared. */
    var store: Option<Preferences>
    /** The bookmark saved in the shared user defaults, as the URL it resolves to. */
    var bookmarkData: Option<Url>
    /** The stream `FSEventStreamCreate` hands out next; every call hands out a new one. */
    var nextStream: StreamId
    /** Streams started and not stopped since. */
    ghost var running: set<StreamId>
    /** Every release of a stream, one entry per `FSEventStreamRelease`. */
    ghost var releases: multiset<StreamId>
    /** How often `process()` has run. */
    ghost var processRuns: nat
    /** Security-scoped accesses to the preferences file started and never stopped. */
    ghost var scopeHolds: int

    ghost predicate Valid()
      reads this
    {
      && (stream.Some? ==> stream.value < nextStream)
      && forall s :: s in running ==> s < nextStream
    }

    /** `init()`: restores the URL from the saved bookmark, if any. The
        assignment in an initialiser does not run the `didSet` observer, so
        nothing is parsed and nothing is watched yet. A bookmark that does not
        resolve clears the store. */
    constructor (savedBookmark: Option<Url>, resolves: bool, sharedStore: Option<Preferences>)
      ensures Valid()
      ensures url == (if savedBookmark.Some? && resolves then savedBookmark else None)
      ensures store == (if savedBookmark.Some? && !resolves then None else sharedStore)
      ensures bookmarkData == savedBookmark
      ensures stream == None && lastChange == None
      ensures running == {} && releases == multiset{} && processRuns == 0 && scopeHolds == 0
    {
      url, stream, lastChange := None, None, None;
      store, bookmarkData, nextStream := sharedStore, savedBookmark, 0;
      running, releases, processRuns, scopeHolds := {}, multiset{}, 0, 0;
      if savedBookmark.Some? {
        if resolves {
          url := savedBookmark;
        } else {
          store := None;
        }
      }
    }

    /** `process()`: parses the file and stores the result, or clears the store. */
    method Process(f: FileAccess, stored: bool)
      requires url.Some?
      modifies this`store, this`processRuns, this`scopeHolds
      ensures store == Published(Parse(f), stored)
      ensures processRuns == old(processRuns) + 1
      ensures scopeHolds == old(scopeHolds) + (if f.scopeStarts && Parse(f).None? then 1 else 0)
    {
      var preferences, held := Open(f);
      scopeHolds := scopeHolds + held;
      processRuns := processRuns + 1;
      if preferences.None? {
        store := None;
        return;
      }
      store := preferences;
      if !stored {
        store := None;
      }
    }

    /** `startObservingForChanges()`: creates and starts a new stream, and
        overwrites `stream` without stopping the one it held. */
    method StartObserving()
      requires Valid() && url.Some?
      modifies this`stream, this`nextStream, this`running
      ensures Valid()
      ensures stream == Some(old(nextStream)) && old(nextStream) !in old(running)
      ensures running == old(running) + {old(nextStream)}
      ensures nextStream == old(nextStream) + 1
    {
      stream := Some(nextStream);
      running := running + {nextStream};
      nextStream := nextStream + 1;
    }

    /** `stopObservingForChanges()`: stops and releases the stream it holds,
        if any, and leaves `stream` pointing at it. */
    method StopObserving()
      modifies this`running, this`releases
      ensures stream.None? ==> running == old(running) && releases == old(releases)
      ensures stream.Some? ==>
        && running == old(running) - {stream.value}
        && releases == old(releases) + multiset{stream.value}
    {
      if stream.Some? {
        running := running - {stream.value};
        releases := releases + multiset{stream.value};
      }
    }

    /** Assigning `url`: the `didSet` observer processes the file and starts
        watching when the new value is non-nil and only stops watching otherwise. */
    method SetUrl(newUrl: Option<Url>, f: FileAccess, stored: bool)
      requires Valid()
      modifies this
      ensures Valid()
      ensures url == newUrl
      ensures lastChange == old(lastChange) && bookmarkData == old(bookmarkData)
      ensures newUrl.Some? ==>
        && store == Published(Parse(f), stored)
        && processRuns == old(processRuns) + 1
        && scopeHolds == old(scopeHolds) + (if f.scopeStarts && Parse(f).None? then 1 else 0)
        && stream == Some(old(nextStream))
        && running == old(running) + {old(nextStream)}
        && releases == old(releases)
      ensures newUrl.None? ==>
        && store == old(store) && processRuns == old(processRuns) && scopeHolds == old(scopeHolds)
        && stream == old(stream)
        && running == (if stream.Some? then old(running) - {stream.value} else old(running))
        && releases == (if stream.Some? then old(releases) + multiset{stream.value} else old(releases))
    {
      url := newUrl;
      if url.Some? {
        Process(f, stored);
        StartObserving();
      } else {
        StopObserving();
      }
    }

    /** `handleFileChangedNotification()`: the debounce in front of `process()`. */
    method HandleFileChanged(now: Time, f: FileAccess, stored: bool)
      requires Debounce(lastChange, now).process ==> url.Some?
      modifies this`lastChange, this`store, this`processRuns, this`scopeHolds
      ensures lastChange == Debounce(old(lastChange), now).lastChange
      ensures Debounce(old(lastChange), now).process ==>
        && store == Published(Parse(f), stored)
        && processRuns == old(processRuns) + 1
        && scopeHolds == old(scopeHolds) + (if f.scopeStarts && Parse(f).None? then 1 else 0)
      ensures !Debounce(old(lastChange), now).process ==>
        store == old(store) && processRuns == old(processRuns) && scopeHolds == old(scopeHolds)
    {
      if lastChange.None? {
        lastChange := Some(now);
      } else if now - lastChange.value > COOLDOWN {
        lastChange := Some(now);
        Process(f, stored);
      }
    }

    /** A batch of file-system events reaching this object: the path filter of
        `eventCallback`, then the notification handler. */
    method DeliverEvents(paths: seq<Path>, now: Time, f: FileAccess, stored: bool)
      requires Forwards(paths) && Debounce(lastChange, now).process ==> url.Some?
      modifies this`lastChange, this`store, this`processRuns, this`scopeHolds
      ensures !Forwards(paths) ==>
        && lastChange == old(lastChange) && store == old(store)
        && processRuns == old(processRuns) && scopeHolds == old(scopeHolds)
      ensures Forwards(paths) ==> lastChange == Debounce(old(lastChange), now).lastChange
      ensures processRuns == old(processRuns) + (if Forwards(paths) && Debounce(old(lastChange), now).process then 1 else 0)
      ensures Forwards(paths) && Debounce(old(lastChange), now).process ==>
        && store == Published(Parse(f), stored)
        && scopeHolds == old(scopeHolds) + (if f.scopeStarts && Parse(f).None? then 1 else 0)
      ensures Forwards(paths) && !Debounce(old(lastChange), now).process ==>
        store == old(store) && scopeHolds == old(scopeHolds)
    {
      if Forwards(paths) {
        HandleFileChanged(now, f, stored);
      }
    }

    /** `bookmark(url:)`: saves a bookmark to the URL; on failure clears the
        store and answers false. */
    method Bookmark(u: Url, succeeds: bool) returns (ok: bool)
      modifies this`bookmarkData, this`store
      ensures ok == succeeds
      ensures succeeds ==> bookmarkData == Some(u) && store == old(store)
      ensures !succeeds ==> bookmarkData == old(bookmarkData) && store == None
    {
      if succeeds {
        bookmarkData := Some(u);
        ok := true;
      } else {
        store := None;
        ok := false;
      }
    }

    /** `grantAccess()`, once the open panel has closed: the chosen file must
        parse and be bookmarked before it becomes `url`. The file is taken to
        read the same way both times it is opened. */
    method GrantAccess(choice: PanelChoice, f: FileAccess, bookmarkSucceeds: bool, stored: bool)
      requires Valid()
      modifies this
      ensures Valid()
      ensures lastChange == old(lastChange)
      ensures url == (if choice.Chose? && Parse(f).Some? && bookmarkSucceeds then Some(choice.url) else old(url))
      // a cancelled panel changes nothing
      ensures choice.Cancelled? ==> unchanged(this)
      // a file that does not parse: only the probe's scope hold remains
      ensures choice.Chose? && Parse(f).None? ==>
        && store == old(store) && stream == old(stream) && running == old(running) && nextStream == old(nextStream)
        && bookmarkData == old(bookmarkData) && processRuns == old(processRuns)
        && scopeHolds == old(scopeHolds) + (if f.scopeStarts then 1 else 0)
      // a parsing file whose bookmark fails: the store is cleared and nothing else happens
      ensures choice.Chose? && Parse(f).Some? && !bookmarkSucceeds ==>
        && store == None && stream == old(stream) && running == old(running) && nextStream == old(nextStream)
        && bookmarkData == old(bookmarkData) && processRuns == old(processRuns) && scopeHolds == old(scopeHolds)
      // a parsing, bookmarked file: processed and watched
      ensures choice.Chose? && Parse(f).Some? && bookmarkSucceeds ==>
        && bookmarkData == Some(choice.url)
        && store == Published(Parse(f), stored)
        && processRuns == old(processRuns) + 1
        && stream == Some(old(nextStream))
        && running == old(running) + {old(nextStream)}
        && scopeHolds == old(scopeHolds)
      ensures releases == old(releases)
    {
      if choice.Chose? {
        var probe, held := Open(f);
        scopeHolds := scopeHolds + held;
        if probe.Some? {
          var ok := Bookmark(choice.url, bookmarkSucceeds);
          if ok {
            SetUrl(Some(choice.url), f, stored);
          }
        }
      }
    }

    /** `deinit`: stops the stream it holds. */
    method Deinit()
      modifies this`running, this`releases
      ensures stream.None? ==> running == old(running) && releases == old(releases)
      ensures stream.Some? ==>
        && running == old(running) - {stream.value}
        && releases == old(releases) + multiset{stream.value}
    {
      StopObserving();
    }
  }

  /** Clearing `url` and then releasing the object releases the same stream twice. */
  method ClearThenDeinitReleasesTwice(u: Url, f: FileAccess, stored: bool) {
    var file := new PreferencesFile(None, true, None);
    file.SetUrl(Some(u), f, stored);
    var s := file.stream.value;
    file.SetUrl(None, f, stored);
    assert file.stream == Some(s) && s !in file.running;
    file.Deinit();
    assert file.releases[s] == 2;
  }

  /** Restarting the watcher does not reset the debounce: only the very first
      notification the object ever receives is ignored. */
  method RestartKeepsDebounce(u: Url, f: FileAccess, stored: bool) {
    var file := new PreferencesFile(Some(u), true, None);
    assert file.stream == None && file.processRuns == 0;
    file.HandleFileChanged(10.0, f, stored);
    assert file.processRuns == 0 && file.lastChange == Some(10.0);
    file.SetUrl(Some(u), f, stored);
    assert file.processRuns == 1;
    file.HandleFileChanged(20.0, f, stored);
    assert file.processRuns == 2;
  }
}
