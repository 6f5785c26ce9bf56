/** The tolerant parser of the Time Machine preferences file
    (`Preferences` and `Preferences.Destination`).

    Per-field extraction never fails: a missing or wrongly typed field becomes
    `nil`, except `isEncrypted`, which becomes `false`. `isNetwork` only tests
    whether its key is present, whatever the value. Only the document's shape
    can make the whole parse fail. */
module TimeMachinePreferences {
  import opened Common
  import opened PropertyList

  const ENCRYPTION_STATE_KEY: string := "LastKnownEncryptionState"
  const ENCRYPTED: string := "Encrypted"
  const NETWORK_URL_KEY: string := "NetworkURL"
  const BYTES_AVAILABLE_KEY: string := "BytesAvailable"
  const BYTES_USED_KEY: string := "BytesUsed"
  const VOLUME_NAME_KEY: string := "LastKnownVolumeName"
  const SNAPSHOT_DATES_KEY: string := "SnapshotDates"
  const ATTEMPT_DATES_KEY: string := "AttemptDates"
  const RESULT_KEY: string := "RESULT"
  const DESTINATIONS_KEY: string := "Destinations"

  /** `Destination.Result`: the outcome of the last backup attempt. */
  datatype BackupResult = OK | Other

  /** One backup destination. Every field is optional, as in Swift's
      `Destination`, even the two flags that the initialiser always sets. */
  datatype Destination = Destination(
    isEncrypted: Option<bool>,
    isNetwork: Option<bool>,
    bytesAvailable: Option<Int>,
    bytesUsed: Option<Int>,
    volumeName: Option<string>,
    snapshots: Option<seq<Date>>,
    attempts: Option<seq<Date>>,
    result: Option<BackupResult>)

  /** The parsed preferences: the destinations, in document order. */
  datatype Preferences = Preferences(destinations: seq<Destination>)

  /** True when `d[key]` holds exactly the integer `n` and `n` fits in `Int`. */
  ghost predicate HoldsInt(d: Dictionary, key: string, n: int) {
    key in d && d[key] == PInt(n) && InInt64(n)
  }

  /** True when `d[key]` holds an array whose every element is a date. */
  ghost predicate HoldsDates(d: Dictionary, key: string) {
    key in d && d[key].PArray? && forall i :: 0 <= i < |d[key].items| ==> d[key].items[i].PDate?
  }

  /** `Destination.init(_:)`: reads each field from the untyped dictionary. */
  function DestinationOf(d: Dictionary): (r: Destination)
    // the two flags are never nil
    ensures r.isEncrypted == Some(ENCRYPTION_STATE_KEY in d && d[ENCRYPTION_STATE_KEY] == PString(ENCRYPTED))
    ensures r.isNetwork == Some(NETWORK_URL_KEY in d)
    // each integer and string field is present exactly when its key holds a value of that type
    ensures forall n: int :: r.bytesAvailable == Some(n) <==> HoldsInt(d, BYTES_AVAILABLE_KEY, n)
    ensures forall n: int :: r.bytesUsed == Some(n) <==> HoldsInt(d, BYTES_USED_KEY, n)
    ensures forall s :: r.volumeName == Some(s) <==> VOLUME_NAME_KEY in d && d[VOLUME_NAME_KEY] == PString(s)
    // the date lists are present only when every element is a date, and then hold those dates in order
    ensures r.snapshots.Some? <==> HoldsDates(d, SNAPSHOT_DATES_KEY)
    ensures r.snapshots.Some? ==>
      && |r.snapshots.value| == |d[SNAPSHOT_DATES_KEY].items|
      && forall i :: 0 <= i < |r.snapshots.value| ==> d[SNAPSHOT_DATES_KEY].items[i] == PDate(r.snapshots.value[i])
    ensures r.attempts.Some? <==> HoldsDates(d, ATTEMPT_DATES_KEY)
    ensures r.attempts.Some? ==>
      && |r.attempts.value| == |d[ATTEMPT_DATES_KEY].items|
      && forall i :: 0 <= i < |r.attempts.value| ==> d[ATTEMPT_DATES_KEY].items[i] == PDate(r.attempts.value[i])
    // integer 0 is OK, any other integer is Other, anything else is nil
    ensures r.result == Some(OK) <==> HoldsInt(d, RESULT_KEY, 0)
    ensures r.result == Some(Other) <==> exists n :: n != 0 && HoldsInt(d, RESULT_KEY, n)
  {
    var result :=
      match CastOptional(Lookup(d, RESULT_KEY), AsInt)
      case Some(n) => if n == 0 then Some(OK) else Some(Other)
      case None => None;
    var r := Destination(
      isEncrypted := Some(CastOptional(Lookup(d, ENCRYPTION_STATE_KEY), AsString) == Some(ENCRYPTED)),
      isNetwork := Some(Lookup(d, NETWORK_URL_KEY) != None),
      bytesAvailable := CastOptional(Lookup(d, BYTES_AVAILABLE_KEY), AsInt),
      bytesUsed := CastOptional(Lookup(d, BYTES_USED_KEY), AsInt),
      volumeName := CastOptional(Lookup(d, VOLUME_NAME_KEY), AsString),
      snapshots := CastOptional(Lookup(d, SNAPSHOT_DATES_KEY), v => AsArray(v, AsDate)),
      attempts := CastOptional(Lookup(d, ATTEMPT_DATES_KEY), v => AsArray(v, AsDate)),
      result := result);
    assert r.result == Some(Other) ==> HoldsInt(d, RESULT_KEY, d[RESULT_KEY].n);
    r
  }

  /** Swift's `compactMap`: applies `f` and keeps the non-nil results, in order. */
  function CompactMap<A, B>(xs: seq<A>, f: A -> Option<B>): (r: seq<B>)
    ensures |r| <= |xs|
    decreases |xs|
  {
    if xs == [] then []
    else (match f(xs[0]) case Some(y) => [y] case None => []) + CompactMap(xs[1..], f)
  }

  /** `compactMap` with a closure that never returns nil drops nothing and
      keeps the order. */
  lemma {:induction false} CompactMapTotal<A, B>(xs: seq<A>, f: A -> Option<B>)
    requires forall x :: f(x).Some?
    ensures |CompactMap(xs, f)| == |xs|
    ensures forall i :: 0 <= i < |xs| ==> f(xs[i]) == Some(CompactMap(xs, f)[i])
    decreases |xs|
  {
    if xs != [] {
      CompactMapTotal(xs[1..], f);
      var y := f(xs[0]).value;
      assert CompactMap(xs, f) == [y] + CompactMap(xs[1..], f);
      forall i | 0 <= i < |xs| ensures f(xs[i]) == Some(CompactMap(xs, f)[i]) {
        if i > 0 {
          assert xs[i] == xs[1..][i - 1];
        }
      }
    }
  }

  /** What `Data(contentsOf:)` and `PropertyListSerialization.propertyList`
      do with the file right now: either call throws, or the file decodes to
      a property-list value. */
  datatype ReadOutcome = ReadThrows | DecodeThrows | Decoded(root: Value)

  /** What opening the preferences file does right now: whether
      `startAccessingSecurityScopedResource()` succeeds, and what reading it gives. */
  datatype FileAccess = FileAccess(scopeStarts: bool, read: ReadOutcome)

  /** True when the decoded document has the shape the parser insists on: a
      dictionary whose `Destinations` entry is an array of dictionaries. */
  ghost predicate WellShaped(root: Value) {
    && root.PDict?
    && DESTINATIONS_KEY in root.entries
    && root.entries[DESTINATIONS_KEY].PArray?
    && forall i :: 0 <= i < |root.entries[DESTINATIONS_KEY].items| ==> root.entries[DESTINATIONS_KEY].items[i].PDict?
  }

  /** The `Destinations` array of a well-shaped document. */
  ghost function DestinationEntries(root: Value): seq<Value>
    requires WellShaped(root)
  {
    root.entries[DESTINATIONS_KEY].items
  }

  /** The destination dictionaries of the document, or nil when the document
      is not a dictionary or `Destinations` is not an array of dictionaries. */
  function DestinationDictionaries(root: Value): (r: Option<seq<Dictionary>>)
    ensures r.Some? <==> WellShaped(root)
    ensures r.Some? ==>
      && |r.value| == |DestinationEntries(root)|
      && forall i :: 0 <= i < |r.value| ==> DestinationEntries(root)[i] == PDict(r.value[i])
  {
    match AsDictionary(root)
    case None => None
    case Some(plist) => CastOptional(Lookup(plist, DESTINATIONS_KEY), v => AsArray(v, AsDictionary))
  }

  /** `Preferences.init?(url:)` as a value: nil on each of its four failure
      paths, otherwise the destinations built from the array. */
  function Parse(f: FileAccess): (r: Option<Preferences>)
    ensures r.None? <==> !f.scopeStarts || !f.read.Decoded? || !WellShaped(f.read.root)
  {
    if !f.scopeStarts then None
    else match f.read
      case ReadThrows => None
      case DecodeThrows => None
      case Decoded(root) =>
        match DestinationDictionaries(root)
        case None => None
        case Some(dicts) => Some(Preferences(CompactMap(dicts, d => Some(DestinationOf(d)))))
  }

  /** The parse fails exactly on the four failure paths, and on success the
      destinations are the entries of `Destinations`, one for one, in order. */
  lemma ParseCharacterization(f: FileAccess)
    ensures Parse(f).None? <==>
      || !f.scopeStarts
      || f.read.ReadThrows?
      || f.read.DecodeThrows?
      || (f.read.Decoded? && !WellShaped(f.read.root))
    ensures Parse(f).Some? ==>
      var entries := DestinationEntries(f.read.root);
      && |Parse(f).value.destinations| == |entries|
      && forall i :: 0 <= i < |entries| ==> Parse(f).value.destinations[i] == DestinationOf(entries[i].entries)
  {
    if f.scopeStarts && f.read.Decoded? {
      var root := f.read.root;
      if root.PDict? && DESTINATIONS_KEY in root.entries && root.entries[DESTINATIONS_KEY].PArray? {
        var items := root.entries[DESTINATIONS_KEY].items;
        var dicts := CastAll(items, AsDictionary);
        assert DestinationDictionaries(root) == dicts;
        if dicts.Some? {
          var g := (d: Dictionary) => Some(DestinationOf(d));
          CompactMapTotal(dicts.value, g);
          forall i | 0 <= i < |items| ensures Parse(f).value.destinations[i] == DestinationOf(items[i].entries) {
            assert AsDictionary(items[i]) == Some(dicts.value[i]);
          }
        } else {
          var i :| 0 <= i < |items| && AsDictionary(items[i]).None?;
          assert !items[i].PDict?;
        }
      }
    }
  }

  /** `Preferences.init?(url:)` step by step. `held` counts the security-scoped
      accesses this call starts and does not stop. */
  method Open(f: FileAccess) returns (prefs: Option<Preferences>, ghost held: int)
    ensures prefs == Parse(f)
    // access is stopped on the success path only; the three early returns keep it
    ensures held == if f.scopeStarts && prefs.None? then 1 else 0
  {
    prefs, held := None, 0;
    if f.scopeStarts {
      held := held + 1;
      match f.read {
        case ReadThrows =>
          return;
        case DecodeThrows =>
          return;
        case Decoded(root) =>
          var plist := AsDictionary(root);
          if plist.None? {
            return;
          }
          var destinationsData := CastOptional(Lookup(plist.value, DESTINATIONS_KEY), v => AsArray(v, AsDictionary));
          if destinationsData.None? {
            return;
          }
          prefs := Some(Preferences(CompactMap(destinationsData.value, d => Some(DestinationOf(d)))));
      }
      held := held - 1;
    }
  }

  /** A bad value in one field leaves every field read from another key as it was. */
  lemma FieldsIndependent(d: Dictionary, key: string, v: Value)
    ensures var before, after := DestinationOf(d), DestinationOf(d[key := v]);
      && (key != ENCRYPTION_STATE_KEY ==> after.isEncrypted == before.isEncrypted)
      && (key != NETWORK_URL_KEY ==> after.isNetwork == before.isNetwork)
      && (key != BYTES_AVAILABLE_KEY ==> after.bytesAvailable == before.bytesAvailable)
      && (key != BYTES_USED_KEY ==> after.bytesUsed == before.bytesUsed)
      && (key != VOLUME_NAME_KEY ==> after.volumeName == before.volumeName)
      && (key != SNAPSHOT_DATES_KEY ==> after.snapshots == before.snapshots)
      && (key != ATTEMPT_DATES_KEY ==> after.attempts == before.attempts)
      && (key != RESULT_KEY ==> after.result == before.result)
  {
  }
}
