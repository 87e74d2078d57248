/**
 Loading every key of a keyring (`keys/keyring_provider.go`). A signing key's address is
 derived from it, so the loaded map is the set of its keys. What the keyring answers is a
 parameter; `decode` says what a record's content really holds.
 */
module KeyringProvider {
  import opened Common
  import opened KeyringFingerprint

  type Key = nat
  datatype Record = Signing(key: Key) | NotSigning | Undecodable
  type Decoding = string -> Record

  // What asking the keyring for one name can answer.
  datatype Lookup = Found(key: Key) | Permanent | Broken | Transient

  // A load that is applied, or one reported as an error with the keys it did read.
  datatype Outcome = Applied(keys: set<Key>) | Refused(partial: set<Key>)

  // The fingerprint is empty when the next load must do the full work.
  datatype Cache = Cache(fingerprint: string, keys: Option<set<Key>>)

  // -- What a directory really holds --

  predicate IsRecord(e: Entry) {
    e.File? && |e.name| >= 5 && e.name[|e.name| - 5..] == ".info"
  }

  function Stem(e: Entry): string
    requires IsRecord(e)
  {
    e.name[..|e.name| - 5]
  }

  function RecordsOf(d: Directory): set<Entry> {
    set e | e in d && IsRecord(e)
  }

  function UndecodableOf(decode: Decoding, d: Directory): set<Entry> {
    set e | e in d && IsRecord(e) && decode(e.digest).Undecodable?
  }

  /** With no names configured every record is asked for. */
  predicate Selected(keyNames: seq<string>, e: Entry) {
    IsRecord(e) && (keyNames == [] || Stem(e) in keyNames)
  }

  /** The signing keys among the selected records of a directory. */
  function FullKeys(decode: Decoding, keyNames: seq<string>, d: Directory): set<Key> {
    set e | e in d && Selected(keyNames, e) && decode(e.digest).Signing? :: decode(e.digest).key
  }

  // -- What the keyring says of it --

  function LookupOf(r: Record): Lookup {
    match r
    case Signing(key) => Found(key)
    case NotSigning => Permanent
    case Undecodable => Broken
  }

  predicate IsRecordOf(name: string, e: Entry) {
    e.File? && e.name == name + ".info"
  }

  /**
   The answer a keyring that read the directory as it is gives for a name; an absent record is a
   permanent failure.
   */
  ghost predicate Answers(decode: Decoding, d: Directory, name: string, answer: Lookup) {
    && (forall e :: e in d && IsRecordOf(name, e) ==> answer == LookupOf(decode(e.digest)))
    && ((forall e :: e in d ==> !IsRecordOf(name, e)) ==> answer == Permanent)
  }

  ghost predicate Decodes(decode: Decoding, d: Directory, name: string) {
    exists e :: e in d && IsRecordOf(name, e) && !decode(e.digest).Undecodable?
  }

  /** Listing names exactly the records that decode, each once. */
  ghost predicate Lists(decode: Decoding, d: Directory, listed: seq<string>) {
    && (forall i, j :: 0 <= i < j < |listed| ==> listed[i] != listed[j])
    && (forall i :: 0 <= i < |listed| ==> Decodes(decode, d, listed[i]))
    && (forall e :: e in d && IsRecord(e) && !decode(e.digest).Undecodable? ==> Stem(e) in listed)
  }

  /** Every answer is what the directory holds, or a failure that says nothing about it. */
  ghost predicate Truthful(decode: Decoding, d: Directory, names: seq<string>, answers: seq<Lookup>) {
    |answers| == |names| && forall i :: 0 <= i < |names| ==>
        answers[i].Transient? || Answers(decode, d, names[i], answers[i])
  }

  function FoundKeys(answers: seq<Lookup>): set<Key> {
    set a | a in answers && a.Found? :: a.key
  }

  lemma FoundIsSelected(decode: Decoding, keyNames: seq<string>, d: Directory, names: seq<string>, answers: seq<Lookup>,
      i: int)
    requires Truthful(decode, d, names, answers) && 0 <= i < |answers| && answers[i].Found?
    requires keyNames == [] || names == keyNames
    ensures answers[i].key in FullKeys(decode, keyNames, d)
  {
    var e :| e in d && IsRecordOf(names[i], e);
    assert Stem(e) == names[i];
  }

  lemma SelectedIsFound(decode: Decoding, keyNames: seq<string>, d: Directory, names: seq<string>, answers: seq<Lookup>,
      e: Entry)
    requires Truthful(decode, d, names, answers) && Transient !in answers
    requires if keyNames == [] then Lists(decode, d, names) else names == keyNames
    requires e in d && Selected(keyNames, e) && decode(e.digest).Signing?
    ensures decode(e.digest).key in FoundKeys(answers)
  {
    var i :| 0 <= i < |names| && names[i] == Stem(e);
    assert IsRecordOf(names[i], e);
    assert answers[i] == Found(decode(e.digest).key);
  }

  /** Asked about a directory that holds still, the keyring yields exactly its selected signing keys. */
  lemma FoundIsFull(decode: Decoding, keyNames: seq<string>, d: Directory, names: seq<string>, answers: seq<Lookup>)
    requires Truthful(decode, d, names, answers) && Transient !in answers
    requires if keyNames == [] then Lists(decode, d, names) else names == keyNames
    ensures FoundKeys(answers) == FullKeys(decode, keyNames, d)
  {
    forall k | k in FoundKeys(answers) ensures k in FullKeys(decode, keyNames, d) {
      var i :| 0 <= i < |answers| && answers[i] == Found(k);
      FoundIsSelected(decode, keyNames, d, names, answers, i);
    }
    forall k | k in FullKeys(decode, keyNames, d) ensures k in FoundKeys(answers) {
      var e :| e in d && Selected(keyNames, e) && decode(e.digest) == Signing(k);
      SelectedIsFound(decode, keyNames, d, names, answers, e);
    }
  }

  // -- One load --

  /** By name: a record that cannot be decoded is left out, unless nothing asked for decodes. */
  function NamedOutcome(answers: seq<Lookup>): Outcome {
    var keys := FoundKeys(answers);
    if Transient in answers then Refused(keys)
    else if Broken in answers && keys == {} then Refused(keys)
    else Applied(keys)
  }

  /** By listing: only decoded records are asked for; records on disk of which none was listed are a broken keyring. */
  function ListedOutcome(hasDir: bool, onDisk: nat, answers: seq<Lookup>): Outcome {
    var keys := FoundKeys(answers);
    if Transient in answers || Broken in answers then Refused(keys)
    else if hasDir && onDisk > 0 && answers == [] then Refused(keys)
    else Applied(keys)
  }

  function Swallowed(onDisk: nat, decoded: nat): nat {
    if decoded < onDisk then onDisk - decoded else 0
  }

  function Same(before: Directory, after: Option<Directory>): bool {
    after.Some? && Fingerprint(after.value) == Fingerprint(before)
  }

  function Remembered(before: Directory, after: Option<Directory>, keys: set<Key>): Cache {
    Cache(if Same(before, after) then Fingerprint(before) else "", Some(keys))
  }

  method LoadNamed(answers: seq<Lookup>) returns (outcome: Outcome, swallowed: nat)
    ensures outcome == NamedOutcome(answers)
    ensures swallowed == multiset(answers)[Broken]
  {
    var keys: set<Key>, errors, decoded := {}, 0, 0;
    swallowed := 0;
    for k := 0 to |answers|
      invariant keys == FoundKeys(answers[..k])
      invariant errors >= 0 && (errors > 0 <==> Transient in answers[..k])
      invariant decoded >= 0 && (decoded > 0 <==> Transient in answers[..k] || keys != {})
      invariant swallowed == multiset(answers[..k])[Broken]
    {
      var a := answers[k];
      assert answers[..k + 1] == answers[..k] + [a];
      FoundOneMore(answers[..k], a);
      match a
      case Found(key) => decoded := decoded + 1; keys := keys + {key};
      case Broken => swallowed := swallowed + 1;
      case Permanent =>
      case Transient => decoded := decoded + 1; errors := errors + 1;
    }
    assert answers[..|answers|] == answers;
    if errors > 0 {
      outcome := Refused(keys);
    } else if swallowed > 0 && decoded == 0 {
      outcome := Refused(keys);
    } else {
      outcome := Applied(keys);
    }
  }

  method LoadListed(hasDir: bool, onDisk: nat, answers: seq<Lookup>) returns (outcome: Outcome, swallowed: nat)
    ensures outcome == ListedOutcome(hasDir, onDisk, answers)
    ensures swallowed == if hasDir then Swallowed(onDisk, |answers|) else 0
  {
    var keys: set<Key>, errors := {}, 0;
    swallowed := 0;
    if hasDir && onDisk > |answers| {
      swallowed := onDisk - |answers|;
    }
    for k := 0 to |answers|
      invariant keys == FoundKeys(answers[..k])
      invariant errors >= 0 && (errors > 0 <==> Transient in answers[..k] || Broken in answers[..k])
    {
      var a := answers[k];
      assert answers[..k + 1] == answers[..k] + [a];
      FoundOneMore(answers[..k], a);
      if a.Found? {
        keys := keys + {a.key};
      } else if !a.Permanent? {
        errors := errors + 1;
      }
    }
    assert answers[..|answers|] == answers;
    if errors > 0 {
      outcome := Refused(keys);
    } else if swallowed > 0 && |answers| == 0 {
      outcome := Refused(keys);
    } else {
      outcome := Applied(keys);
    }
  }

  lemma FoundOneMore(answers: seq<Lookup>, a: Lookup)
    ensures FoundKeys(answers + [a]) == FoundKeys(answers) + if a.Found? then {a.key} else {}
  {
    forall k | k in FoundKeys(answers) ensures k in FoundKeys(answers + [a]) {
      assert Found(k) in answers + [a];
    }
    if a.Found? {
      assert (answers + [a])[|answers|] == a;
    }
  }

  // -- A load and its cache --

  datatype Config = Config(hasDir: bool, keyNames: seq<string>)

  /**
   Everything one load meets. `before` and `after` are the directory as read before and after
   the work, `listed` what the keyring listed, `onDisk` the records counted beside that,
   `answers` one lookup a name; None where a read failed. `atList` and `atLookup` are the
   directory at the moments the keyring listed it and looked each name up.
   */
  datatype Load = Load(
    before: Option<Directory>,
    atList: Directory,
    listed: Option<seq<string>>,
    onDisk: Option<nat>,
    atLookup: seq<Directory>,
    answers: seq<Lookup>,
    after: Option<Directory>)

  /** The names looked up. */
  function NamesOf(cfg: Config, l: Load): seq<string> {
    if cfg.keyNames != [] then cfg.keyNames else if l.listed.Some? then l.listed.value else []
  }

  /** What the load comes to when nothing is reused. */
  function FullWork(cfg: Config, l: Load): Outcome {
    if cfg.hasDir && l.before.None? then Refused({})
    else if cfg.keyNames != [] then NamedOutcome(l.answers)
    else if l.listed.None? || (cfg.hasDir && l.onDisk.None?) then Refused({})
    else ListedOutcome(cfg.hasDir, if cfg.hasDir then l.onDisk.value else 0, l.answers)
  }

  predicate Hits(cfg: Config, cache: Cache, l: Load) {
    cfg.hasDir && l.before.Some? && cache.keys.Some? && cache.fingerprint == Fingerprint(l.before.value)
  }

  function OutcomeOf(cfg: Config, cache: Cache, l: Load): Outcome {
    if Hits(cfg, cache, l) then Applied(cache.keys.value) else FullWork(cfg, l)
  }

  /** Only an applied load is remembered, and only a reading that did not change is reused. */
  function CacheAfter(cfg: Config, cache: Cache, l: Load): Cache {
    if Hits(cfg, cache, l) || !cfg.hasDir || FullWork(cfg, l).Refused? then cache
    else Remembered(l.before.value, l.after, FullWork(cfg, l).keys)
  }

  const EMPTY := Cache("", None)

  /** The cache after a run of loads. */
  function CacheOver(cfg: Config, loads: seq<Load>): Cache {
    if loads == [] then EMPTY else CacheAfter(cfg, CacheOver(cfg, loads[..|loads| - 1]), loads[|loads| - 1])
  }

  class Provider {
    const cfg: Config
    var cache: Cache
    // How many records could not be decoded, as last published.
    var undecodable: nat
    // The loads so far.
    ghost var loads: seq<Load>

    ghost predicate Valid()
      reads this
    {
      cache == CacheOver(cfg, loads)
    }

    constructor (cfg: Config)
      ensures Valid() && this.cfg == cfg && cache == EMPTY && loads == []
    {
      this.cfg := cfg;
      cache, undecodable, loads := EMPTY, 0, [];
    }

    /** One load. */
    method LoadKeys(l: Load) returns (outcome: Outcome, hit: bool)
      requires Valid() && |l.answers| == |NamesOf(cfg, l)|
      modifies this
      ensures Valid() && loads == old(loads) + [l]
      ensures hit <==> Hits(cfg, old(cache), l)
      ensures outcome == OutcomeOf(cfg, old(cache), l)
      ensures cache == CacheAfter(cfg, old(cache), l)
      ensures hit ==> undecodable == old(undecodable)
      ensures !hit && cfg.hasDir && l.before.Some? && cfg.keyNames != [] ==> undecodable == multiset(l.answers)[Broken]
      ensures !hit && cfg.hasDir && l.before.Some? && cfg.keyNames == [] && l.listed.Some? && l.onDisk.Some? ==>
                undecodable == Swallowed(l.onDisk.value, |l.answers|)
    {
      ghost var was := loads;
      loads := loads + [l];
      assert loads[..|loads| - 1] == was;
      hit := false;
      if cfg.hasDir {
        if l.before.None? {
          return Refused({}), false;
        }
        if cache.keys.Some? && cache.fingerprint == Fingerprint(l.before.value) {
          return Applied(cache.keys.value), true;
        }
      }
      var swallowed := 0;
      if cfg.keyNames != [] {
        outcome, swallowed := LoadNamed(l.answers);
      } else {
        if l.listed.None? || (cfg.hasDir && l.onDisk.None?) {
          return Refused({}), false;
        }
        outcome, swallowed := LoadListed(cfg.hasDir, if cfg.hasDir then l.onDisk.value else 0, l.answers);
      }
      if cfg.hasDir {
        undecodable := swallowed;
        if outcome.Applied? {
          cache := Remembered(l.before.value, l.after, outcome.keys);
        }
      }
    }
  }

  // -- What the directory did meanwhile --

  ghost predicate Good(d: Directory) {
    Allowed(false, false, d)
  }

  /** The directory at each moment the load depends on, in order. */
  function Moments(cfg: Config, l: Load): seq<Directory>
    requires l.before.Some? && l.after.Some?
  {
    [l.before.value] + (if cfg.keyNames == [] then [l.atList] else []) + l.atLookup + [l.after.value]
  }

  /** It never comes back to what it was after having been something else. */
  ghost predicate NeverReturns(h: seq<Directory>) {
    forall i, j, k :: 0 <= i < j < k < |h| && SameEntries(h[i], h[k]) ==> SameEntries(h[i], h[j])
  }

  /**
   The keyring told the truth about the directory as it was when asked, or failed without saying
   anything about it.
   */
  ghost predicate TrueWhenAsked(decode: Decoding, cfg: Config, l: Load) {
    && (cfg.keyNames == [] && l.listed.Some? ==> Lists(decode, l.atList, l.listed.value))
    && |l.atLookup| == |l.answers| == |NamesOf(cfg, l)|
    && forall i :: 0 <= i < |l.answers| ==>
         l.answers[i].Transient? || Answers(decode, l.atLookup[i], NamesOf(cfg, l)[i], l.answers[i])
  }

  /** A load as the world may present it, with or without the directory changing and changing back during it. */
  ghost predicate Possible(decode: Decoding, cfg: Config, roundTrips: bool, l: Load) {
    && TrueWhenAsked(decode, cfg, l)
    && (l.before.Some? ==> Good(l.before.value))
    && (l.before.Some? && l.after.Some? ==>
          && (forall i :: 0 <= i < |Moments(cfg, l)| ==> Good(Moments(cfg, l)[i]))
          && (roundTrips || NeverReturns(Moments(cfg, l))))
  }

  /** Equal readings before and after then mean that every answer was true of the directory read first. */
  lemma EveryMomentWasTheFirst(cfg: Config, l: Load, i: nat)
    requires l.before.Some? && Same(l.before.value, l.after) && i < |Moments(cfg, l)|
    requires forall k :: 0 <= k < |Moments(cfg, l)| ==> Good(Moments(cfg, l)[k])
    requires NeverReturns(Moments(cfg, l))
    ensures SameEntries(l.before.value, Moments(cfg, l)[i])
  {
    var h := Moments(cfg, l);
    assert h[0] == l.before.value && h[|h| - 1] == l.after.value;
    assert Good(h[0]) && Good(h[|h| - 1]);
    FingerprintTellsDirectoriesApart(h[0], h[|h| - 1]);
    assert SameEntries(h[0], h[|h| - 1]);
  }

  lemma SameAnswers(decode: Decoding, d: Directory, f: Directory, name: string, answer: Lookup)
    requires SameEntries(d, f) && Answers(decode, f, name, answer)
    ensures Answers(decode, d, name, answer)
  {
    if forall e :: e in d ==> !IsRecordOf(name, e) {
      assert forall e :: e in f ==> !IsRecordOf(name, e);
    }
  }

  lemma SameListing(decode: Decoding, d: Directory, f: Directory, listed: seq<string>)
    requires SameEntries(d, f) && Lists(decode, f, listed)
    ensures Lists(decode, d, listed)
  {
    forall i | 0 <= i < |listed| ensures Decodes(decode, d, listed[i]) {
      assert Decodes(decode, f, listed[i]);
    }
  }

  lemma AnswersAreOfTheFirst(decode: Decoding, cfg: Config, l: Load)
    requires Possible(decode, cfg, false, l) && l.before.Some? && Same(l.before.value, l.after)
    ensures Truthful(decode, l.before.value, NamesOf(cfg, l), l.answers)
    ensures cfg.keyNames == [] && l.listed.Some? ==> Lists(decode, l.before.value, l.listed.value)
  {
    var first := if cfg.keyNames == [] then 2 else 1;
    if cfg.keyNames == [] && l.listed.Some? {
      assert Moments(cfg, l)[1] == l.atList;
      EveryMomentWasTheFirst(cfg, l, 1);
      SameListing(decode, l.before.value, l.atList, l.listed.value);
    }
    forall i | 0 <= i < |l.answers|
      ensures l.answers[i].Transient? || Answers(decode, l.before.value, NamesOf(cfg, l)[i], l.answers[i])
    {
      if !l.answers[i].Transient? {
        assert Moments(cfg, l)[first + i] == l.atLookup[i];
        EveryMomentWasTheFirst(cfg, l, first + i);
        SameAnswers(decode, l.before.value, l.atLookup[i], NamesOf(cfg, l)[i], l.answers[i]);
      }
    }
  }

  lemma AppliedIsFull(decode: Decoding, cfg: Config, l: Load)
    requires Possible(decode, cfg, false, l) && cfg.hasDir && l.before.Some? && Same(l.before.value, l.after)
    requires FullWork(cfg, l).Applied?
    ensures FullWork(cfg, l).keys == FullKeys(decode, cfg.keyNames, l.before.value)
  {
    AnswersAreOfTheFirst(decode, cfg, l);
    FoundIsFull(decode, cfg.keyNames, l.before.value, NamesOf(cfg, l), l.answers);
  }

  ghost predicate IsFullLoadOf(decode: Decoding, cfg: Config, cache: Cache, d: Directory) {
    Good(d) && cache == Cache(Fingerprint(d), Some(FullKeys(decode, cfg.keyNames, d)))
  }

  ghost predicate AllPossible(decode: Decoding, cfg: Config, roundTrips: bool, loads: seq<Load>) {
    forall i :: 0 <= i < |loads| ==> Possible(decode, cfg, roundTrips, loads[i])
  }

  /** What the cache holds under a fingerprint is the full load of a directory with it. */
  lemma {:induction false} CacheIsAFullLoad(decode: Decoding, cfg: Config, loads: seq<Load>)
    requires AllPossible(decode, cfg, false, loads)
    ensures CacheOver(cfg, loads).fingerprint != "" ==> exists d :: IsFullLoadOf(decode, cfg, CacheOver(cfg, loads), d)
  {
    if loads != [] {
      var n := |loads| - 1;
      var was, l := CacheOver(cfg, loads[..n]), loads[n];
      CacheIsAFullLoad(decode, cfg, loads[..n]);
      if CacheOver(cfg, loads) != was && CacheOver(cfg, loads).fingerprint != "" {
        AppliedIsFull(decode, cfg, l);
        assert IsFullLoadOf(decode, cfg, CacheOver(cfg, loads), l.before.value);
      }
    }
  }

  lemma SameEntriesSameKeys(decode: Decoding, keyNames: seq<string>, d: Directory, f: Directory)
    requires SameEntries(d, f)
    ensures FullKeys(decode, keyNames, d) == FullKeys(decode, keyNames, f)
  {
  }

  /**
   Over every run of loads in which the directory does not change and change back inside one
   load, every hit gives exactly the keys a full load of the directory as it is now would.
   */
  lemma EveryHitIsAFullLoad(decode: Decoding, cfg: Config, loads: seq<Load>, l: Load)
    requires AllPossible(decode, cfg, false, loads)
    requires Hits(cfg, CacheOver(cfg, loads), l) && Good(l.before.value)
    ensures OutcomeOf(cfg, CacheOver(cfg, loads), l) == Applied(FullKeys(decode, cfg.keyNames, l.before.value))
  {
    CacheIsAFullLoad(decode, cfg, loads);
    var d :| IsFullLoadOf(decode, cfg, CacheOver(cfg, loads), d);
    FingerprintTellsDirectoriesApart(d, l.before.value);
    SameEntriesSameKeys(decode, cfg.keyNames, d, l.before.value);
  }

  ghost predicate HitAgrees(decode: Decoding, cfg: Config, loads: seq<Load>, l: Load) {
    Hits(cfg, CacheOver(cfg, loads), l) && Good(l.before.value) ==>
      OutcomeOf(cfg, CacheOver(cfg, loads), l) == Applied(FullKeys(decode, cfg.keyNames, l.before.value))
  }

  /** Every hit of every run agrees, by name or by listing, with or without such round trips. */
  ghost predicate HitsAgree(named: bool, roundTrips: bool) {
    forall decode, cfg: Config, loads, l ::
      (cfg.keyNames != [] <==> named) && AllPossible(decode, cfg, roundTrips, loads) ==>
          HitAgrees(decode, cfg, loads, l)
  }

  function Hash(c: char): string {
    seq(64, _ => c)
  }

  function OneKey(digest: string): Directory {
    [File("x.info", digest)]
  }

  function TwoKeys(digest: string): Record {
    Signing(if digest == Hash('a') then 1 else 2)
  }

  /** The directory holds one key, then another while the keyring reads it, then the first again. */
  function RoundTrip(): Load {
    Load(Some(OneKey(Hash('a'))), OneKey(Hash('b')), Some(["x"]), Some(1), [OneKey(Hash('b'))], [Found(2)],
        Some(OneKey(Hash('a'))))
  }

  lemma KeyFileIsGood(digest: string)
    requires IsDigest(digest)
    ensures Good(OneKey(digest)) && IsRecordOf("x", OneKey(digest)[0]) && IsRecord(OneKey(digest)[0]) &&
            Stem(OneKey(digest)[0]) == "x"
  {
    OtherInitial(OneKey(digest)[0], 'x');
    assert '\n' !in "x.info";
  }

  lemma RoundTripIsPossible(cfg: Config)
    requires cfg.keyNames == [] || cfg.keyNames == ["x"]
    ensures Possible(TwoKeys, cfg, true, RoundTrip())
  {
    KeyFileIsGood(Hash('a'));
    KeyFileIsGood(Hash('b'));
    assert Hash('a')[0] != Hash('b')[0];
    var l := RoundTrip();
    assert OneKey(Hash('b'))[0] in OneKey(Hash('b'));
    assert Lists(TwoKeys, l.atList, ["x"]);
    assert Answers(TwoKeys, l.atLookup[0], "x", Found(2));
  }

  lemma RoundTripMisleads(cfg: Config)
    requires cfg.hasDir && (cfg.keyNames == [] || cfg.keyNames == ["x"])
    ensures !HitAgrees(TwoKeys, cfg, [RoundTrip()], RoundTrip())
  {
    var l := RoundTrip();
    KeyFileIsGood(Hash('a'));
    assert Hash('a')[0] != Hash('b')[0];
    assert l.answers == [Found(2)] && Found(2) in l.answers;
    assert FoundKeys(l.answers) == {2};
    assert [l][..0] == [];
    assert CacheOver(cfg, [l]) == CacheAfter(cfg, EMPTY, l) == Cache(Fingerprint(OneKey(Hash('a'))), Some({2}));
    assert OneKey(Hash('a'))[0] in OneKey(Hash('a'));
    assert 1 in FullKeys(TwoKeys, cfg.keyNames, OneKey(Hash('a')));
  }

  lemma RoundTripsBreakIt(named: bool)
    ensures !HitsAgree(named, true)
  {
    var cfg := Config(true, if named then ["x"] else []);
    RoundTripIsPossible(cfg);
    RoundTripMisleads(cfg);
    assert AllPossible(TwoKeys, cfg, true, [RoundTrip()]);
  }

  /** The cache agrees with full loads over all runs if and only if no load meets a round trip. */
  lemma HitsAgreeExactlyWithoutRoundTrips(named: bool, roundTrips: bool)
    ensures HitsAgree(named, roundTrips) <==> !roundTrips
  {
    if roundTrips {
      RoundTripsBreakIt(named);
    } else {
      forall decode: Decoding, cfg: Config, loads, l | AllPossible(decode, cfg, false, loads)
        ensures HitAgrees(decode, cfg, loads, l)
      {
        if Hits(cfg, CacheOver(cfg, loads), l) && Good(l.before.value) {
          EveryHitIsAFullLoad(decode, cfg, loads, l);
        }
      }
    }
  }

  // -- What the guards mean --

  lemma {:induction false} ListedAreTheDecodable(decode: Decoding, d: Directory, listed: seq<string>)
    requires WellFormed(d) && Lists(decode, d, listed)
    ensures |listed| == |RecordsOf(d) - UndecodableOf(decode, d)|
  {
    var good := RecordsOf(d) - UndecodableOf(decode, d);
    var stems := set e | e in good :: Stem(e);
    StemsAreAsMany(d, good);
    NamesAreAsMany(listed);
    assert stems == set n | n in listed by {
      forall n | n in listed ensures n in stems {
        var i :| 0 <= i < |listed| && listed[i] == n;
        assert Decodes(decode, d, listed[i]);
        var e :| e in d && IsRecordOf(listed[i], e) && !decode(e.digest).Undecodable?;
        assert e in good && Stem(e) == n;
      }
    }
  }

  lemma {:induction false} StemsAreAsMany(d: Directory, records: set<Entry>)
    requires WellFormed(d) && forall e :: e in records ==> e in d && IsRecord(e)
    ensures |set e | e in records :: Stem(e)| == |records|
  {
    if records != {} {
      var x :| x in records;
      var rest := records - {x};
      StemsAreAsMany(d, rest);
      var stems := set e | e in rest :: Stem(e);
      assert (set e | e in records :: Stem(e)) == stems + {Stem(x)};
      if Stem(x) in stems {
        var y :| y in rest && Stem(y) == Stem(x);
        SameStemSameEntry(d, x, y);
      }
    }
  }

  lemma SameStemSameEntry(d: Directory, x: Entry, y: Entry)
    requires WellFormed(d) && x in d && y in d && IsRecord(x) && IsRecord(y) && Stem(x) == Stem(y)
    ensures x == y
  {
    assert x.name == Stem(x) + ".info" && y.name == Stem(y) + ".info";
    var i :| 0 <= i < |d| && d[i] == x;
    var j :| 0 <= j < |d| && d[j] == y;
  }

  lemma {:induction false} NamesAreAsMany(names: seq<string>)
    requires forall i, j :: 0 <= i < j < |names| ==> names[i] != names[j]
    ensures |set n | n in names| == |names|
  {
    if names != [] {
      var k := |names| - 1;
      NamesAreAsMany(names[..k]);
      assert (set n | n in names) == (set n | n in names[..k]) + {names[k]};
    }
  }

  /** On a directory that holds still the count published is exactly how many records do not decode. */
  lemma SwallowedIsExact(decode: Decoding, d: Directory, listed: seq<string>)
    requires WellFormed(d) && Lists(decode, d, listed)
    ensures Swallowed(|RecordsOf(d)|, |listed|) == |UndecodableOf(decode, d)|
  {
    ListedAreTheDecodable(decode, d, listed);
    assert UndecodableOf(decode, d) <= RecordsOf(d);
  }

  /**
   A load of every key from a directory that holds still is refused exactly when some lookup
   failed on the way, or there are records and not one decodes; otherwise it applies exactly
   the directory's signing keys. So a keyring emptied of records is applied, as an empty set.
   */
  lemma ListingARestingDirectory(decode: Decoding, d: Directory, listed: seq<string>, answers: seq<Lookup>)
    requires WellFormed(d) && Lists(decode, d, listed) && Truthful(decode, d, listed, answers)
    ensures var outcome := ListedOutcome(true, |RecordsOf(d)|, answers);
            && (outcome.Refused? <==>
                Transient in answers || (RecordsOf(d) != {} && RecordsOf(d) == UndecodableOf(decode, d)))
            && (outcome.Applied? ==> outcome.keys == FullKeys(decode, [], d))
  {
    ListedAreTheDecodable(decode, d, listed);
    ListedNeverBreaks(decode, d, listed, answers);
    var good := RecordsOf(d) - UndecodableOf(decode, d);
    assert answers == [] <==> good == {};
    assert good == {} <==> RecordsOf(d) == UndecodableOf(decode, d);
    assert |RecordsOf(d)| > 0 <==> RecordsOf(d) != {};
    if Transient !in answers {
      FoundIsFull(decode, [], d, listed, answers);
    }
  }

  /**
   By name, likewise: refused exactly when a lookup failed on the way, or a named record does not
   decode and no named one signs.
   */
  lemma NamingARestingDirectory(decode: Decoding, keyNames: seq<string>, d: Directory, answers: seq<Lookup>)
    requires keyNames != [] && Truthful(decode, d, keyNames, answers)
    ensures var outcome := NamedOutcome(answers);
            && (outcome.Refused? <==>
                  || Transient in answers
                  || (&& FullKeys(decode, keyNames, d) == {}
                      && exists e :: e in d && Selected(keyNames, e) && decode(e.digest).Undecodable?))
            && (outcome.Applied? ==> outcome.keys == FullKeys(decode, keyNames, d))
  {
    if Transient !in answers {
      FoundIsFull(decode, keyNames, d, keyNames, answers);
      BrokenIsUndecodable(decode, keyNames, d, answers);
    }
  }

  /** What a load of a directory that holds still has to be refused for. */
  ghost predicate MustRefuse(decode: Decoding, keyNames: seq<string>, d: Directory, answers: seq<Lookup>) {
    || Transient in answers
    || (&& keyNames == []
        && RecordsOf(d) != {} && RecordsOf(d) == UndecodableOf(decode, d))
    || (&& keyNames != [] && FullKeys(decode, keyNames, d) == {}
        && exists e :: e in d && Selected(keyNames, e) && decode(e.digest).Undecodable?)
  }

  /**
   A whole load, by name or by listing as configured, of a directory that holds still, with its
   records counted: refused exactly then, and otherwise exactly the selected signing keys.
   */
  lemma LoadingARestingDirectory(decode: Decoding, cfg: Config, l: Load)
    requires cfg.hasDir && l.before.Some? && WellFormed(l.before.value)
    requires Truthful(decode, l.before.value, NamesOf(cfg, l), l.answers)
    requires cfg.keyNames == [] ==>
             && l.listed.Some? && Lists(decode, l.before.value, l.listed.value)
             && l.onDisk == Some(|RecordsOf(l.before.value)|)
    ensures var d := l.before.value;
            FullWork(cfg, l) ==
              if MustRefuse(decode, cfg.keyNames, d, l.answers) then Refused(FoundKeys(l.answers))
              else Applied(FullKeys(decode, cfg.keyNames, d))
  {
    if cfg.keyNames == [] {
      ListingARestingDirectory(decode, l.before.value, l.listed.value, l.answers);
    } else {
      NamingARestingDirectory(decode, cfg.keyNames, l.before.value, l.answers);
    }
  }

  /** A load that cannot read what it starts from is refused with nothing read, and leaves the cache alone. */
  lemma UnreadableIsRefused(cfg: Config, cache: Cache, l: Load)
    requires || (cfg.hasDir && l.before.None?)
             || (cfg.keyNames == [] && (l.listed.None? || (cfg.hasDir && l.onDisk.None?)))
    ensures FullWork(cfg, l) == Refused({}) && CacheAfter(cfg, cache, l) == cache
  {
  }

  lemma BrokenIsUndecodable(decode: Decoding, keyNames: seq<string>, d: Directory, answers: seq<Lookup>)
    requires keyNames != [] && Truthful(decode, d, keyNames, answers) && Transient !in answers
    ensures Broken in answers <==> exists e :: e in d && Selected(keyNames, e) && decode(e.digest).Undecodable?
  {
    if Broken in answers {
      var i :| 0 <= i < |answers| && answers[i] == Broken;
      var e :| e in d && IsRecordOf(keyNames[i], e);
      assert Stem(e) == keyNames[i];
    }
    if e :| e in d && Selected(keyNames, e) && decode(e.digest).Undecodable? {
      var i :| 0 <= i < |keyNames| && keyNames[i] == Stem(e);
      assert IsRecordOf(keyNames[i], e);
      assert answers[i] == Broken;
    }
  }

  /** A listed record decodes, so asking for it does not find it broken. */
  lemma ListedNeverBreaks(decode: Decoding, d: Directory, listed: seq<string>, answers: seq<Lookup>)
    requires Lists(decode, d, listed) && Truthful(decode, d, listed, answers)
    ensures Broken !in answers
  {
    forall i | 0 <= i < |answers| ensures answers[i] != Broken {
      assert Decodes(decode, d, listed[i]);
      var e :| e in d && IsRecordOf(listed[i], e) && !decode(e.digest).Undecodable?;
      assert answers[i].Transient? || answers[i] == LookupOf(decode(e.digest));
    }
  }

  /** A load that changed underneath is never reused: no later load hits what it leaves. */
  lemma RacedLoadIsNeverReused(cfg: Config, cache: Cache, l: Load, later: Load)
    requires cfg.hasDir && l.before.Some? && !Hits(cfg, cache, l) && FullWork(cfg, l).Applied? &&
            !Same(l.before.value, l.after)
    ensures !Hits(cfg, CacheAfter(cfg, cache, l), later)
  {
  }

  /** And one that did not is: the next load hits exactly when it finds the same entries, in whatever order. */
  lemma NextLoadHitsExactlyWhenUnchanged(cfg: Config, cache: Cache, l: Load, later: Load)
    requires cfg.hasDir && l.before.Some? && !Hits(cfg, cache, l) && FullWork(cfg, l).Applied?
    requires Same(l.before.value, l.after) && Good(l.before.value) && later.before.Some? && Good(later.before.value)
    ensures Hits(cfg, CacheAfter(cfg, cache, l), later) <==> SameEntries(l.before.value, later.before.value)
    ensures Hits(cfg, CacheAfter(cfg, cache, l), later) ==>
            OutcomeOf(cfg, CacheAfter(cfg, cache, l), later) == FullWork(cfg, l)
  {
    FingerprintsAreEqualExactlyForSameEntries(l.before.value, later.before.value);
  }

  /**
   Comparing the two readings does not see a change that was undone in between: a load that
   began and ended with one directory but read another is remembered under the first.
   */
  lemma RoundTripIsRemembered(decode: Decoding, d: Directory, f: Directory, listed: seq<string>, answers: seq<Lookup>)
    requires WellFormed(d) && WellFormed(f) && Lists(decode, f, listed) && Truthful(decode, f, listed, answers)
    requires Transient !in answers && FullKeys(decode, [], f) != {} &&
            FullKeys(decode, [], f) != FullKeys(decode, [], d)
    ensures var outcome := ListedOutcome(true, |RecordsOf(f)|, answers);
            outcome.Applied? && Remembered(d, Some(d), outcome.keys) ==
                Cache(Fingerprint(d), Some(FullKeys(decode, [], f)))
  {
    ListingARestingDirectory(decode, f, listed, answers);
    FoundIsFull(decode, [], f, listed, answers);
    NothingDecodesNoKeys(decode, f);
  }

  lemma NothingDecodesNoKeys(decode: Decoding, d: Directory)
    ensures RecordsOf(d) == UndecodableOf(decode, d) ==> FullKeys(decode, [], d) == {}
  {
    if RecordsOf(d) == UndecodableOf(decode, d) {
      forall e | e in d && IsRecord(e) ensures !decode(e.digest).Signing? {
        assert e in RecordsOf(d);
      }
    }
  }
}
