/** The hash-chained audit log: what verification accepts, and how far an accepted log is pinned down. */
module AuditChain {
  import opened Numerals
  import opened CanonicalJson
  import opened CanonicalJsonProofs

  /** SHA-256 in hex, left uninterpreted. */
  type Hash = JsString -> JsString

  datatype Entry = Entry(
    sequence: int, id: JsString, timestamp: int, kind: JsString, actor: JsString, payload: Json,
    previousHash: JsString, hash: JsString, retentionUntil: int)

  datatype Checkpoint = Checkpoint(sequence: int, hash: JsString, timestamp: int)

  datatype Message = BrokenLink | HashMismatch | CheckpointMismatch
  datatype ChainError = ChainError(sequence: int, message: Message)

  function Repeat(c: CodeUnit, n: nat): JsString {
    if n == 0 then [] else Repeat(c, n - 1) + [c]
  }

  /** 64 zeros. */
  const GENESIS_HASH: JsString := Repeat(48, 64)
  const SEVEN_YEARS_MS := 7 * 365 * 24 * 60 * 60 * 1000

  const SEQUENCE: JsString := [115, 101, 113, 117, 101, 110, 99, 101]
  const ID: JsString := [105, 100]
  const TIMESTAMP: JsString := [116, 105, 109, 101, 115, 116, 97, 109, 112]
  const TYPE: JsString := [116, 121, 112, 101]
  const ACTOR: JsString := [97, 99, 116, 111, 114]
  const PAYLOAD: JsString := [112, 97, 121, 108, 111, 97, 100]
  const PREVIOUS_HASH: JsString := [112, 114, 101, 118, 105, 111, 117, 115, 72, 97, 115, 104]
  const RETENTION_UNTIL: JsString := [114, 101, 116, 101, 110, 116, 105, 111, 110, 85, 110, 116, 105, 108]

  /** The genesis hash is 64 zeros, and entries are kept for seven years of 365 days. */
  lemma ConstantsAsWritten()
    ensures |GENESIS_HASH| == 64 && forall i :: 0 <= i < 64 ==> GENESIS_HASH[i] as int == '0' as int
    ensures SEVEN_YEARS_MS == 220752000000
  {
    Repeated(48, 64);
    hide Repeat;
  }

  /** The hashed fields go by their own names. */
  lemma NamesAsWritten()
    ensures SEQUENCE == Units("sequence") && ID == Units("id") && TIMESTAMP == Units("timestamp")
    ensures TYPE == Units("type") && ACTOR == Units("actor") && PAYLOAD == Units("payload")
    ensures PREVIOUS_HASH == Units("previousHash")
    ensures RETENTION_UNTIL == Units("retentionUntil")
  {
    hide Units;
  }

  lemma {:induction false} Repeated(c: CodeUnit, n: nat)
    ensures |Repeat(c, n)| == n && forall i :: 0 <= i < n ==> Repeat(c, n)[i] == c
  {
    if n > 0 {
      Repeated(c, n - 1);
    }
  }

  function HashedFields(e: Entry): seq<Field> {
    [Field(SEQUENCE, Num(e.sequence)), Field(ID, Str(e.id)), Field(TIMESTAMP, Num(e.timestamp)), Field(TYPE, Str(e.kind)),
     Field(ACTOR, Str(e.actor)), Field(PAYLOAD, e.payload), Field(PREVIOUS_HASH, Str(e.previousHash)),
     Field(RETENTION_UNTIL, Num(e.retentionUntil))]
  }

  /** `entryHashMaterial`. */
  function Material(e: Entry): JsString {
    Stringify(Obj(HashedFields(e)))
  }

  // ----- verification -----

  function ExpectedPrevious(entries: seq<Entry>, i: nat): JsString
    requires i <= |entries|
  {
    if i == 0 then GENESIS_HASH else entries[i - 1].hash
  }

  /** Checkpoint hashes by sequence; a later checkpoint for the same sequence replaces an earlier one. */
  function CheckpointMap(checkpoints: seq<Checkpoint>): map<int, JsString> {
    if |checkpoints| == 0 then map[]
    else
      var last := checkpoints[|checkpoints| - 1];
      CheckpointMap(checkpoints[..|checkpoints| - 1])[last.sequence := last.hash]
  }

  /** Entry `i` links to the one before it, carries its own hash and agrees with its checkpoint. */
  predicate EntryOk(h: Hash, entries: seq<Entry>, pins: map<int, JsString>, i: nat)
    requires i < |entries|
  {
    && entries[i].previousHash == ExpectedPrevious(entries, i)
    && h(Material(entries[i])) == entries[i].hash
    && (entries[i].sequence in pins ==> pins[entries[i].sequence] == h(Material(entries[i])))
  }

  ghost predicate Verifies(h: Hash, entries: seq<Entry>, pins: map<int, JsString>) {
    forall i :: 0 <= i < |entries| ==> EntryOk(h, entries, pins, i)
  }

  /** The errors an entry gives rise to, in the order of the three checks. */
  function EntryErrors(h: Hash, entries: seq<Entry>, pins: map<int, JsString>, i: nat): seq<ChainError>
    requires i < |entries|
  {
    var e, recomputed := entries[i], h(Material(entries[i]));
    (if e.previousHash != ExpectedPrevious(entries, i) then [ChainError(e.sequence, BrokenLink)] else [])
    + (if recomputed != e.hash then [ChainError(e.sequence, HashMismatch)] else [])
    + (if e.sequence in pins && pins[e.sequence] != recomputed then [ChainError(e.sequence, CheckpointMismatch)] else [])
  }

  function ChainErrors(h: Hash, entries: seq<Entry>, pins: map<int, JsString>, n: nat): seq<ChainError>
    requires n <= |entries|
  {
    if n == 0 then [] else ChainErrors(h, entries, pins, n - 1) + EntryErrors(h, entries, pins, n - 1)
  }

  lemma {:induction false} NoErrorsIff(h: Hash, entries: seq<Entry>, pins: map<int, JsString>, n: nat)
    requires n <= |entries|
    ensures ChainErrors(h, entries, pins, n) == [] <==> forall i :: 0 <= i < n ==> EntryOk(h, entries, pins, i)
  {
    hide Material;
    if n > 0 {
      NoErrorsIff(h, entries, pins, n - 1);
      assert EntryErrors(h, entries, pins, n - 1) == [] <==> EntryOk(h, entries, pins, n - 1);
    }
  }

  /** What each message says of entry `i`. */
  predicate Faulty(h: Hash, entries: seq<Entry>, pins: map<int, JsString>, i: nat, m: Message)
    requires i < |entries|
  {
    match m
    case BrokenLink => entries[i].previousHash != if i == 0 then GENESIS_HASH else entries[i - 1].hash
    case HashMismatch => h(Material(entries[i])) != entries[i].hash
    case CheckpointMismatch => entries[i].sequence in pins && pins[entries[i].sequence] != h(Material(entries[i]))
  }

  /** An error is reported exactly for the entries it is true of. */
  lemma {:induction false} ErrorsAreExact(h: Hash, entries: seq<Entry>, pins: map<int, JsString>, n: nat, e: ChainError)
    requires n <= |entries|
    ensures e in ChainErrors(h, entries, pins, n) <==>
              exists i :: 0 <= i < n && entries[i].sequence == e.sequence && Faulty(h, entries, pins, i, e.message)
  {
    hide Material, GENESIS_HASH;
    if n > 0 {
      ErrorsAreExact(h, entries, pins, n - 1, e);
      EntryErrorsExact(h, entries, pins, n - 1, e);
      hide EntryErrors, Faulty;
    }
  }

  lemma EntryErrorsExact(h: Hash, entries: seq<Entry>, pins: map<int, JsString>, i: nat, e: ChainError)
    requires i < |entries|
    ensures e in EntryErrors(h, entries, pins, i) <==> entries[i].sequence == e.sequence && Faulty(h, entries, pins, i, e.message)
  {
    hide Material, GENESIS_HASH;
  }

  method IndexCheckpoints(checkpoints: seq<Checkpoint>) returns (pins: map<int, JsString>)
    ensures pins == CheckpointMap(checkpoints)
  {
    pins := map[];
    for i := 0 to |checkpoints|
      invariant pins == CheckpointMap(checkpoints[..i])
    {
      assert checkpoints[..i + 1][..i] == checkpoints[..i];
      pins := pins[checkpoints[i].sequence := checkpoints[i].hash];
    }
    assert checkpoints[..|checkpoints|] == checkpoints;
  }

  /** `verifyAuditChain`: valid exactly when every entry is, with the errors of all entries in order. */
  method VerifyAuditChain(h: Hash, entries: seq<Entry>, checkpoints: seq<Checkpoint>)
    returns (valid: bool, errors: seq<ChainError>)
    ensures valid <==> Verifies(h, entries, CheckpointMap(checkpoints))
    ensures errors == ChainErrors(h, entries, CheckpointMap(checkpoints), |entries|)
  {
    hide Material, CheckpointMap, GENESIS_HASH, EntryOk;
    var pins := IndexCheckpoints(checkpoints);
    errors := [];
    var expectedPreviousHash := GENESIS_HASH;
    for i := 0 to |entries|
      invariant expectedPreviousHash == ExpectedPrevious(entries, i)
      invariant errors == ChainErrors(h, entries, pins, i)
    {
      var entry := entries[i];
      ghost var before := errors;
      if entry.previousHash != expectedPreviousHash {
        errors := errors + [ChainError(entry.sequence, BrokenLink)];
      }
      var recomputed := h(Material(entry));
      if recomputed != entry.hash {
        errors := errors + [ChainError(entry.sequence, HashMismatch)];
      }
      if entry.sequence in pins && pins[entry.sequence] != recomputed {
        errors := errors + [ChainError(entry.sequence, CheckpointMismatch)];
      }
      expectedPreviousHash := entry.hash;
      assert errors == before + EntryErrors(h, entries, pins, i);
    }
    NoErrorsIff(h, entries, pins, |entries|);
    valid := errors == [];
  }

  // ----- the service -----

  /** Entries are numbered from 1 and every checkpoint copies the hash of an entry. */
  ghost predicate ServiceOk(h: Hash, entries: seq<Entry>, checkpoints: seq<Checkpoint>) {
    && Verifies(h, entries, map[])
    && (forall i :: 0 <= i < |entries| ==> entries[i].sequence == i + 1)
    && (forall c :: c in checkpoints ==> 1 <= c.sequence <= |entries| && c.hash == entries[c.sequence - 1].hash)
  }

  /** The checkpoints once there is one for entry `e`. */
  function Checkpointed(checkpoints: seq<Checkpoint>, e: Entry, now: int): seq<Checkpoint> {
    if exists c :: c in checkpoints && c.sequence == e.sequence && c.hash == e.hash then checkpoints
    else checkpoints + [Checkpoint(e.sequence, e.hash, now)]
  }

  class IntegrityAuditLog {
    var entries: seq<Entry>
    var checkpoints: seq<Checkpoint>
    const checkpointInterval: int
    const hasCheckpointUrl: bool
    const h: Hash

    ghost predicate Valid()
      reads this
    {
      ServiceOk(h, entries, checkpoints)
    }

    constructor (h: Hash, checkpointInterval: int, hasCheckpointUrl: bool)
      ensures Valid() && entries == [] && checkpoints == []
    {
      this.h, this.checkpointInterval, this.hasCheckpointUrl := h, checkpointInterval, hasCheckpointUrl;
      entries, checkpoints := [], [];
    }

    /** `now`, `later` and `last` are the clock readings; publishing to a URL completes later, by `CreateCheckpoint`. */
    method Append(kind: JsString, payload: Json, actor: JsString, id: JsString, now: int, later: int, last: int)
      returns (entry: Entry)
      requires Valid()
      modifies this
      ensures Valid()
      ensures entries == old(entries) + [entry]
      ensures checkpoints == if checkpointInterval > 0 && entry.sequence % checkpointInterval == 0 && !hasCheckpointUrl
                             then Checkpointed(old(checkpoints), entry, last) else old(checkpoints)
      ensures entry == Entry(|old(entries)| + 1, id, now, kind, actor, payload,
                             ExpectedPrevious(old(entries), |old(entries)|), h(Material(entry)), later + SEVEN_YEARS_MS)
    {
      var previousHash := if |entries| > 0 then entries[|entries| - 1].hash else GENESIS_HASH;
      entry := Entry(|entries| + 1, id, now, kind, actor, payload, previousHash, [], later + SEVEN_YEARS_MS);
      MaterialIgnoresHash(entry, h(Material(entry)));
      entry := entry.(hash := h(Material(entry)));
      AppendVerifies(h, entries, entry, map[]);
      entries := entries + [entry];
      if checkpointInterval > 0 && entry.sequence % checkpointInterval == 0 && !hasCheckpointUrl {
        CreateCheckpoint(entry.sequence, last);
      }
    }

    /** Records a checkpoint for an existing entry, unless the same one is already there. */
    method CreateCheckpoint(sequence: int, now: int)
      requires Valid() && 1 <= sequence <= |entries|
      modifies this`checkpoints
      ensures Valid()
      ensures checkpoints == Checkpointed(old(checkpoints), entries[sequence - 1], now)
    {
      var entry := entries[sequence - 1];
      for i := 0 to |checkpoints|
        invariant forall j :: 0 <= j < i ==> !(checkpoints[j].sequence == entry.sequence && checkpoints[j].hash == entry.hash)
      {
        if checkpoints[i].sequence == entry.sequence && checkpoints[i].hash == entry.hash {
          assert checkpoints[i] in checkpoints;
          return;
        }
      }
      checkpoints := checkpoints + [Checkpoint(entry.sequence, entry.hash, now)];
    }

    /** Whatever was appended and checkpointed, the log verifies. */
    method Verify() returns (valid: bool)
      requires Valid()
      ensures valid
    {
      var errors;
      valid, errors := VerifyAuditChain(h, entries, checkpoints);
      ServiceVerifies(h, entries, checkpoints);
    }
  }

  lemma MaterialIgnoresHash(e: Entry, hash: JsString)
    ensures Material(e.(hash := hash)) == Material(e)
  {
    assert HashedFields(e.(hash := hash)) == HashedFields(e);
  }

  lemma AppendVerifies(h: Hash, entries: seq<Entry>, e: Entry, pins: map<int, JsString>)
    requires Verifies(h, entries, pins)
    requires e.previousHash == ExpectedPrevious(entries, |entries|) && e.hash == h(Material(e)) && e.sequence !in pins
    ensures Verifies(h, entries + [e], pins)
  {
    var longer := entries + [e];
    forall i | 0 <= i < |longer|
      ensures EntryOk(h, longer, pins, i)
    {
      if i < |entries| {
        assert EntryOk(h, entries, pins, i);
      }
    }
  }

  lemma {:induction false} CheckpointMapValues(checkpoints: seq<Checkpoint>, s: int)
    requires s in CheckpointMap(checkpoints)
    ensures exists c :: c in checkpoints && c.sequence == s && c.hash == CheckpointMap(checkpoints)[s]
  {
    var last := checkpoints[|checkpoints| - 1];
    assert last in checkpoints;
    if last.sequence != s {
      CheckpointMapValues(checkpoints[..|checkpoints| - 1], s);
    }
  }

  lemma ServiceVerifies(h: Hash, entries: seq<Entry>, checkpoints: seq<Checkpoint>)
    requires ServiceOk(h, entries, checkpoints)
    ensures Verifies(h, entries, CheckpointMap(checkpoints))
  {
    var pins := CheckpointMap(checkpoints);
    forall i | 0 <= i < |entries|
      ensures EntryOk(h, entries, pins, i)
    {
      assert EntryOk(h, entries, map[], i);
      if entries[i].sequence in pins {
        CheckpointMapValues(checkpoints, entries[i].sequence);
      }
    }
  }

  // ----- what an accepted log pins down -----

  /** Equal in every hashed field, the payload up to key order, and in the hash. */
  ghost predicate SameEntry(a: Entry, b: Entry) {
    && a.sequence == b.sequence && a.id == b.id && a.timestamp == b.timestamp && a.kind == b.kind && a.actor == b.actor
    && SameValue(a.payload, b.payload)
    && a.previousHash == b.previousHash && a.retentionUntil == b.retentionUntil && a.hash == b.hash
  }

  ghost predicate SameLog(a: seq<Entry>, b: seq<Entry>) {
    |a| == |b| && forall i :: 0 <= i < |a| ==> SameEntry(a[i], b[i])
  }

  /** The two logs exhibit a hash collision, or a text that hashes to the genesis value. */
  ghost predicate BreaksHash(h: Hash, a: seq<Entry>, b: seq<Entry>) {
    || (exists i, j :: 0 <= i < |a| && 0 <= j < |b| && Collide(h, a[i], b[j]))
    || (exists i :: 0 <= i < |a| && h(Material(a[i])) == GENESIS_HASH)
    || (exists j :: 0 <= j < |b| && h(Material(b[j])) == GENESIS_HASH)
  }

  predicate Collide(h: Hash, x: Entry, y: Entry) {
    Material(x) != Material(y) && h(Material(x)) == h(Material(y))
  }

  lemma PrefixesBreakHash(h: Hash, a: seq<Entry>, b: seq<Entry>, n: nat, m: nat)
    requires n <= |a| && m <= |b| && BreaksHash(h, a[..n], b[..m])
    ensures BreaksHash(h, a, b)
  {
    hide Material, GENESIS_HASH;
    if i, j :| 0 <= i < n && 0 <= j < m && Collide(h, a[..n][i], b[..m][j]) {
      assert Collide(h, a[i], b[j]);
    } else if i :| 0 <= i < n && h(Material(a[..n][i])) == GENESIS_HASH {
      assert h(Material(a[i])) == GENESIS_HASH;
    } else {
      var j :| 0 <= j < m && h(Material(b[..m][j])) == GENESIS_HASH;
      assert h(Material(b[j])) == GENESIS_HASH;
    }
  }

  ghost predicate PayloadsOk(entries: seq<Entry>) {
    forall i :: 0 <= i < |entries| ==> WellFormed(entries[i].payload)
  }

  lemma FieldsDistinct(e: Entry)
    ensures DistinctKeys(HashedFields(e))
  {
  }

  /** The hashed text determines every hashed field. */
  lemma MaterialInjective(a: Entry, b: Entry)
    requires WellFormed(a.payload) && WellFormed(b.payload)
    requires Material(a) == Material(b) && a.hash == b.hash
    ensures SameEntry(a, b) && a.previousHash == b.previousHash
  {
    hide Stringify, SameValue, DistinctKeys, HashedFields, WellFormed;
    FieldsDistinct(a);
    FieldsDistinct(b);
    HashedFieldsExact(a, b);
    var f, g := HashedFields(a), HashedFields(b);
    WellFormedFields(a);
    WellFormedFields(b);
    StringifyInjectiveUpToKeyOrder(Obj(f), Obj(g));
    SameField(f, g, 0);
    SameField(f, g, 1);
    SameField(f, g, 2);
    SameField(f, g, 3);
    SameField(f, g, 4);
    SameField(f, g, 5);
    SameField(f, g, 6);
    SameField(f, g, 7);
  }

  lemma HashedFieldsExact(a: Entry, b: Entry)
    ensures var f, g := HashedFields(a), HashedFields(b);
            && |f| == |g| == 8
            && (forall i :: 0 <= i < 8 ==> f[i].key == g[i].key)
            && f[0].value == Num(a.sequence) && f[1].value == Str(a.id) && f[2].value == Num(a.timestamp)
            && f[3].value == Str(a.kind) && f[4].value == Str(a.actor) && f[5].value == a.payload
            && f[6].value == Str(a.previousHash) && f[7].value == Num(a.retentionUntil)
            && g[0].value == Num(b.sequence) && g[1].value == Str(b.id) && g[2].value == Num(b.timestamp)
            && g[3].value == Str(b.kind) && g[4].value == Str(b.actor) && g[5].value == b.payload
            && g[6].value == Str(b.previousHash) && g[7].value == Num(b.retentionUntil)
  {
  }

  lemma WellFormedFields(e: Entry)
    requires WellFormed(e.payload)
    ensures WellFormed(Obj(HashedFields(e)))
  {
    FieldsDistinct(e);
    hide DistinctKeys;
  }

  lemma SameField(f: seq<Field>, g: seq<Field>, i: nat)
    requires DistinctKeys(g) && SameValue(Obj(f), Obj(g)) && i < |f| && i < |g| && f[i].key == g[i].key
    ensures SameValue(f[i].value, g[i].value)
    ensures !f[i].value.Arr? && !f[i].value.Obj? ==> f[i].value == g[i].value
  {
    LookupAt(g, i);
  }

  lemma PrefixVerifies(h: Hash, entries: seq<Entry>, pins: map<int, JsString>, k: nat)
    requires Verifies(h, entries, pins) && k <= |entries|
    ensures Verifies(h, entries[..k], pins)
  {
    forall i | 0 <= i < k
      ensures EntryOk(h, entries[..k], pins, i)
    {
      assert EntryOk(h, entries, pins, i);
    }
  }

  /** Two accepted logs that end in the same hash are equal entry by entry, unless they break the hash function. */
  lemma {:induction false} SameEndSameLog(h: Hash, a: seq<Entry>, b: seq<Entry>,
                                          aPins: map<int, JsString>, bPins: map<int, JsString>)
    requires |a| > 0 && |b| > 0 && PayloadsOk(a) && PayloadsOk(b)
    requires Verifies(h, a, aPins) && Verifies(h, b, bPins)
    requires a[|a| - 1].hash == b[|b| - 1].hash
    ensures SameLog(a, b) || BreaksHash(h, a, b)
    decreases |a|
  {
    hide Material, SameEntry, GENESIS_HASH;
    var n, m := |a| - 1, |b| - 1;
    assert EntryOk(h, a, aPins, n) && EntryOk(h, b, bPins, m);
    if Material(a[n]) == Material(b[m]) {
      MaterialInjective(a[n], b[m]);
      if n > 0 && m > 0 {
        PrefixVerifies(h, a, aPins, n);
        PrefixVerifies(h, b, bPins, m);
        SameEndSameLog(h, a[..n], b[..m], aPins, bPins);
        if BreaksHash(h, a[..n], b[..m]) {
          PrefixesBreakHash(h, a, b, n, m);
        }
      } else if n > 0 {
        assert EntryOk(h, a, aPins, n - 1);
        assert h(Material(a[n - 1])) == GENESIS_HASH;
      } else if m > 0 {
        assert EntryOk(h, b, bPins, m - 1);
        assert h(Material(b[m - 1])) == GENESIS_HASH;
      }
    } else {
      assert Collide(h, a[n], b[m]);
    }
  }

  /** Rewriting any entry but the last, in a log that still verifies, changes nothing that is hashed. */
  lemma EditIsDetected(h: Hash, entries: seq<Entry>, pins: map<int, JsString>, later: map<int, JsString>, i: nat, edited: Entry)
    requires i + 1 < |entries| && PayloadsOk(entries) && WellFormed(edited.payload)
    requires Verifies(h, entries, pins) && Verifies(h, entries[i := edited], later)
    ensures SameEntry(entries[i], edited) || BreaksHash(h, entries, entries[i := edited])
  {
    hide EntryOk;
    SameEndSameLog(h, entries, entries[i := edited], pins, later);
  }

  /** Two logs accepted against checkpoints that share one agree on everything up to it, once both reach it. */
  lemma CheckpointPinsPrefix(h: Hash, a: seq<Entry>, b: seq<Entry>, aPins: map<int, JsString>, bPins: map<int, JsString>,
                             i: nat, j: nat)
    requires i < |a| && j < |b| && PayloadsOk(a) && PayloadsOk(b)
    requires Verifies(h, a, aPins) && Verifies(h, b, bPins)
    requires a[i].sequence == b[j].sequence && a[i].sequence in aPins && a[i].sequence in bPins
    requires aPins[a[i].sequence] == bPins[a[i].sequence]
    ensures (i == j && SameLog(a[..i + 1], b[..j + 1])) || BreaksHash(h, a, b)
  {
    hide Material, GENESIS_HASH, BreaksHash, SameEntry;
    assert a[i].hash == b[j].hash by {
      assert EntryOk(h, a, aPins, i) && EntryOk(h, b, bPins, j);
    }
    hide EntryOk;
    PrefixVerifies(h, a, aPins, i + 1);
    PrefixVerifies(h, b, bPins, j + 1);
    SameEndSameLog(h, a[..i + 1], b[..j + 1], aPins, bPins);
    if BreaksHash(h, a[..i + 1], b[..j + 1]) {
      PrefixesBreakHash(h, a, b, i + 1, j + 1);
    }
  }

  /** The log that keeps, in the given order, the entries at the given positions. */
  function Pick(entries: seq<Entry>, positions: seq<nat>): (r: seq<Entry>)
    requires forall i :: 0 <= i < |positions| ==> positions[i] < |entries|
    ensures |r| == |positions| && forall i :: 0 <= i < |r| ==> r[i] == entries[positions[i]]
  {
    if |positions| == 0 then []
    else Pick(entries, positions[..|positions| - 1]) + [entries[positions[|positions| - 1]]]
  }

  /** Deleting, repeating or reordering entries is detected exactly when the result is not a prefix of the log. */
  lemma RearrangedVerifiesIff(h: Hash, entries: seq<Entry>, pins: map<int, JsString>, positions: seq<nat>)
    requires Verifies(h, entries, pins) && PayloadsOk(entries) && !BreaksHash(h, entries, entries)
    requires forall i :: 0 <= i < |positions| ==> positions[i] < |entries|
    ensures Verifies(h, Pick(entries, positions), pins) <==> forall i :: 0 <= i < |positions| ==> positions[i] == i
  {
    var picked := Pick(entries, positions);
    if Verifies(h, picked, pins) {
      InOrder(h, entries, pins, positions, |positions|);
    }
    if forall i :: 0 <= i < |positions| ==> positions[i] == i {
      assert |positions| > 0 ==> positions[|positions| - 1] == |positions| - 1;
      assert picked == entries[..|positions|];
      PrefixVerifies(h, entries, pins, |positions|);
    }
  }

  lemma {:induction false} InOrder(h: Hash, entries: seq<Entry>, pins: map<int, JsString>, positions: seq<nat>, n: nat)
    requires Verifies(h, entries, pins) && PayloadsOk(entries) && !BreaksHash(h, entries, entries)
    requires forall i :: 0 <= i < |positions| ==> positions[i] < |entries|
    requires Verifies(h, Pick(entries, positions), pins) && n <= |positions|
    ensures forall i :: 0 <= i < n ==> positions[i] == i
  {
    hide Material, GENESIS_HASH, PayloadsOk, BreaksHash;
    if n > 0 {
      InOrder(h, entries, pins, positions, n - 1);
      assert EntryOk(h, Pick(entries, positions), pins, n - 1);
      SamePlace(h, entries, pins, positions[n - 1], n - 1);
    }
  }

  /** An entry that links to the end of the first `k` entries is entry `k`. */
  lemma SamePlace(h: Hash, entries: seq<Entry>, pins: map<int, JsString>, p: nat, k: nat)
    requires Verifies(h, entries, pins) && PayloadsOk(entries) && !BreaksHash(h, entries, entries)
    requires p < |entries| && k <= |entries| && entries[p].previousHash == ExpectedPrevious(entries, k)
    ensures p == k
  {
    hide Material, GENESIS_HASH;
    assert EntryOk(h, entries, pins, p);
    assert p > 0 ==> EntryOk(h, entries, pins, p - 1);
    assert k > 0 ==> EntryOk(h, entries, pins, k - 1);
    if p > 0 && k > 0 {
      PrefixVerifies(h, entries, pins, p);
      PrefixVerifies(h, entries, pins, k);
      hide EntryOk, BreaksHash;
      SameEndSameLog(h, entries[..p], entries[..k], pins, pins);
      if BreaksHash(h, entries[..p], entries[..k]) {
        PrefixesBreakHash(h, entries, entries, p, k);
      }
    }
  }

  /**
   * Continuity of the sequence numbers is not checked: whatever the numbers, with gaps, repeats or out of order, some log
   * carries exactly those and verifies, against any checkpoints for other numbers.
   */
  lemma {:induction false} AnyNumbersVerify(h: Hash, numbers: seq<int>, pins: map<int, JsString>) returns (log: seq<Entry>)
    requires forall i :: 0 <= i < |numbers| ==> numbers[i] !in pins
    ensures |log| == |numbers| && forall i :: 0 <= i < |log| ==> log[i].sequence == numbers[i]
    ensures Verifies(h, log, pins) && PayloadsOk(log)
  {
    hide Material, GENESIS_HASH;
    if |numbers| == 0 {
      log := [];
    } else {
      var n := |numbers| - 1;
      var front := AnyNumbersVerify(h, numbers[..n], pins);
      var e := Entry(numbers[n], [], 0, [], [], Null, ExpectedPrevious(front, n), [], 0);
      MaterialIgnoresHash(e, h(Material(e)));
      e := e.(hash := h(Material(e)));
      AppendVerifies(h, front, e, pins);
      log := front + [e];
    }
  }

  /** The numbers matter only through the checkpoints: a number with a checkpoint occurs at most once in a log that verifies. */
  lemma PinnedNumberOccursOnce(h: Hash, log: seq<Entry>, pins: map<int, JsString>, i: nat, j: nat)
    requires Verifies(h, log, pins) && PayloadsOk(log) && i < |log| && j < |log|
    requires log[i].sequence == log[j].sequence && log[i].sequence in pins
    ensures i == j || BreaksHash(h, log, log)
  {
    CheckpointPinsPrefix(h, log, log, pins, pins, i, j);
  }
}
