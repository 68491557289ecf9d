/** The state of a plugin and the binary file it is saved to: a sorted map, its encoder and
    its decoder. */
module StateStore {
  import opened Events
  import opened Bytes

  /** std::string and value buffers alike are byte sequences. */
  type Key = seq<byte>

  datatype Record = Record(key: Key, value: seq<byte>)

  /** The entries of a std::map in iteration order. */
  type State = seq<Record>

  const WORD: nat := 8

  // ----- the map -----

  /** The order of std::string: bytewise, a prefix first. */
  predicate Less(a: Key, b: Key) {
    b != [] && (a == [] || a[0] < b[0] || (a[0] == b[0] && Less(a[1..], b[1..])))
  }

  ghost predicate Sorted(s: State) {
    forall i, j :: 0 <= i < j < |s| ==> Less(s[i].key, s[j].key)
  }

  function Put(s: State, key: Key, value: seq<byte>): State {
    if s == [] then [Record(key, value)]
    else if s[0].key == key then [Record(key, value)] + s[1..]
    else if Less(key, s[0].key) then [Record(key, value)] + s
    else [s[0]] + Put(s[1..], key, value)
  }

  function Find(s: State, key: Key): Option<seq<byte>> {
    if s == [] then None else if s[0].key == key then Some(s[0].value) else Find(s[1..], key)
  }

  lemma {:induction false} LessIrreflexive(a: Key)
    ensures !Less(a, a)
  {
    if a != [] { LessIrreflexive(a[1..]); }
  }

  lemma {:induction false} LessTrans(a: Key, b: Key, c: Key)
    requires Less(a, b) && Less(b, c)
    ensures Less(a, c)
  {
    if a != [] && a[0] == b[0] == c[0] { LessTrans(a[1..], b[1..], c[1..]); }
  }

  lemma {:induction false} LessTotal(a: Key, b: Key)
    ensures a == b || Less(a, b) || Less(b, a)
  {
    if a != [] && b != [] && a[0] == b[0] {
      LessTotal(a[1..], b[1..]);
      if a[1..] == b[1..] { assert a == [a[0]] + a[1..] && b == [b[0]] + b[1..]; }
    }
  }

  lemma {:induction false} PutMember(s: State, key: Key, value: seq<byte>)
    ensures forall r :: r in Put(s, key, value) ==> r == Record(key, value) || r in s
    ensures |s| <= |Put(s, key, value)| <= |s| + 1
  {
    if s != [] && s[0].key != key && !Less(key, s[0].key) { PutMember(s[1..], key, value); }
  }

  lemma {:induction false} PutSorted(s: State, key: Key, value: seq<byte>)
    requires Sorted(s)
    ensures Sorted(Put(s, key, value))
  {
    if s != [] && s[0].key != key {
      if Less(key, s[0].key) {
        forall j | 0 < j < |s| ensures Less(key, s[j].key) { LessTrans(key, s[0].key, s[j].key); }
      } else {
        PutSorted(s[1..], key, value);
        PutMember(s[1..], key, value);
        LessTotal(key, s[0].key);
        var p := Put(s[1..], key, value);
        forall j | 0 <= j < |p| ensures Less(s[0].key, p[j].key) {
          assert p[j] in p;
        }
      }
    }
  }

  /** Put is the assignment state[key] = value. */
  lemma {:induction false} PutFind(s: State, key: Key, value: seq<byte>, k: Key)
    requires Sorted(s)
    ensures Find(Put(s, key, value), k) == if k == key then Some(value) else Find(s, k)
  {
    if s != [] && s[0].key != key && !Less(key, s[0].key) {
      PutFind(s[1..], key, value, k);
    }
  }

  /** A key above all others goes to the end. */
  lemma {:induction false} PutLast(s: State, key: Key, value: seq<byte>)
    requires forall i :: 0 <= i < |s| ==> Less(s[i].key, key)
    ensures Put(s, key, value) == s + [Record(key, value)]
  {
    if s != [] {
      LessIrreflexive(key);
      if Less(key, s[0].key) {
        LessTrans(key, s[0].key, key);
      }
      PutLast(s[1..], key, value);
    }
  }

  // ----- the file format -----

  /** Everything the file stores as a size_t fits one. */
  ghost predicate Fits(s: State) {
    && |s| < Pow256(WORD)
    && forall i :: 0 <= i < |s| ==> |s[i].key| < Pow256(WORD) && |s[i].value| < Pow256(WORD)
  }

  function EncodeRecord(r: Record): seq<byte> {
    Encode(|r.key|, WORD) + r.key + Encode(|r.value|, WORD) + r.value
  }

  /** SaveState skips an entry whose key is empty. */
  function EncodeEntry(r: Record): seq<byte> {
    if r.key == [] then [] else EncodeRecord(r)
  }

  function EncodeEntries(s: State): seq<byte> {
    if s == [] then [] else EncodeEntry(s[0]) + EncodeEntries(s[1..])
  }

  /** What SaveState writes: the size of the map, then its entries. */
  function Save(s: State): seq<byte> {
    Encode(|s|, WORD) + EncodeEntries(s)
  }

  /** Writing from the start of a file does not cut off what was there beyond. */
  function Overwrite(prior: seq<byte>, text: seq<byte>): seq<byte> {
    text + Leftover(prior, text)
  }

  function Leftover(prior: seq<byte>, text: seq<byte>): seq<byte> {
    if |prior| > |text| then prior[|text|..] else []
  }

  datatype Parsed = Stop | More(record: Record, rest: seq<byte>)

  /** A counted byte string, or Stop at the end of the file. */
  datatype Chunk = NoChunk | Chunk(bytes: seq<byte>, rest: seq<byte>)

  function ReadChunk(bs: seq<byte>): Chunk {
    if |bs| < WORD then NoChunk else
    var n, rest := Number(bs[..WORD]), bs[WORD..];
    if |rest| < n then NoChunk else Chunk(rest[..n], rest[n..])
  }

  /** One record as LoadState reads it; it gives up at an empty key and at the end of file. */
  function ReadRecord(bs: seq<byte>): Parsed {
    match ReadChunk(bs)
    case NoChunk => Stop
    case Chunk(key, rest) =>
      if key == [] then Stop else
      match ReadChunk(rest)
      case NoChunk => Stop
      case Chunk(value, rest) => More(Record(key, value), rest)
  }

  function LoadRecords(bs: seq<byte>, records: nat, state: State): State
    decreases records
  {
    if records == 0 then state else
    match ReadRecord(bs)
    case Stop => state
    case More(r, rest) => LoadRecords(rest, records - 1, Put(state, r.key, r.value))
  }

  function Load(file: seq<byte>): State {
    if |file| < WORD then [] else LoadRecords(file[WORD..], Number(file[..WORD]), [])
  }

  // ----- reading back what was written -----

  lemma ReadChunkBack(bs: seq<byte>, tail: seq<byte>)
    requires |bs| < Pow256(WORD)
    ensures ReadChunk(Encode(|bs|, WORD) + bs + tail) == Chunk(bs, tail)
  {
    hide Encode, Number, Pow256;
    DecodeEncode(|bs|, WORD);
    var all, head, rest := Encode(|bs|, WORD) + bs + tail, Encode(|bs|, WORD), bs + tail;
    assert all == head + rest;
    assert all[..WORD] == head;
    assert all[WORD..] == rest;
    assert rest[..|bs|] == bs && rest[|bs|..] == tail;
  }

  lemma ReadBack(r: Record, tail: seq<byte>)
    requires r.key != [] && |r.key| < Pow256(WORD) && |r.value| < Pow256(WORD)
    ensures ReadRecord(EncodeRecord(r) + tail) == More(r, tail)
  {
    hide Encode, Number, Pow256, ReadChunk;
    var rest := Encode(|r.value|, WORD) + r.value + tail;
    assert EncodeRecord(r) + tail == Encode(|r.key|, WORD) + r.key + rest;
    ReadChunkBack(r.key, rest);
    ReadChunkBack(r.value, tail);
  }

  ghost predicate NoEmptyKey(s: State) {
    forall i :: 0 <= i < |s| ==> s[i].key != []
  }

  lemma {:induction false} LoadEntries(s: State, tail: seq<byte>, n: nat, acc: State)
    requires Fits(s) && NoEmptyKey(s) && Sorted(acc + s) && n >= |s|
    ensures LoadRecords(EncodeEntries(s) + tail, n, acc) == LoadRecords(tail, n - |s|, acc + s)
    decreases |s|
  {
    hide Encode, Number, Pow256, ReadRecord, EncodeRecord, Put, Less;
    if s == [] {
      assert EncodeEntries(s) + tail == tail && acc + s == acc;
    } else {
      var rest := EncodeEntries(s[1..]) + tail;
      assert EncodeEntries(s) + tail == EncodeRecord(s[0]) + rest;
      ReadBack(s[0], rest);
      assert forall i :: 0 <= i < |acc| ==> acc[i] == (acc + s)[i];
      assert (acc + s)[|acc|] == s[0];
      PutLast(acc, s[0].key, s[0].value);
      assert (acc + [s[0]]) + s[1..] == acc + s;
      LoadEntries(s[1..], tail, n - 1, acc + [s[0]]);
    }
  }

  /** The entries SaveState writes. */
  function Written(s: State): State {
    if s != [] && s[0].key == [] then s[1..] else s
  }

  /** Loading what SaveState wrote, followed by what the previous file left behind, gives the
      saved state without its empty key; if there was an empty key, the count promises one
      record more than was written, and that one is read from the leftover. */
  lemma LoadOverwritten(s: State, leftover: seq<byte>)
    requires Sorted(s) && Fits(s)
    ensures Load(Save(s) + leftover) == LoadRecords(leftover, |s| - |Written(s)|, Written(s))
  {
    hide LoadRecords, Load, Save, EncodeRecord, Less, Pow256;
    SavedParts(s, leftover);
    OnlyFirstEmpty(s);
    assert EncodeEntries(s) == EncodeEntries(Written(s));
    assert [] + Written(s) == Written(s);
    LoadEntries(Written(s), leftover, |s|, []);
  }

  lemma SavedParts(s: State, leftover: seq<byte>)
    requires |s| < Pow256(WORD)
    ensures Load(Save(s) + leftover) == LoadRecords(EncodeEntries(s) + leftover, |s|, [])
  {
    hide Encode, Number, Pow256, LoadRecords, EncodeEntries;
    var file, head, rest := Save(s) + leftover, Encode(|s|, WORD), EncodeEntries(s) + leftover;
    DecodeEncode(|s|, WORD);
    assert file == head + rest;
    assert file[..WORD] == head;
    assert file[WORD..] == rest;
  }

  lemma OnlyFirstEmpty(s: State)
    requires Sorted(s)
    ensures NoEmptyKey(Written(s)) && Sorted(Written(s))
  {
  }

  lemma PutKeeps(s: State, key: Key, value: seq<byte>)
    ensures |Put(s, key, value)| <= |s| + 1
    ensures key != [] && NoEmptyKey(s) ==> NoEmptyKey(Put(s, key, value))
    ensures Fits(s) && |s| + 1 < Pow256(WORD) && |key| < Pow256(WORD) && |value| < Pow256(WORD) ==>
              Fits(Put(s, key, value))
  {
    hide Put, Pow256;
    PutMember(s, key, value);
    var p := Put(s, key, value);
    assert forall i :: 0 <= i < |p| ==> p[i] in p;
  }

  lemma {:induction false} LoadedIsWellFormed(bs: seq<byte>, records: nat, state: State)
    requires Sorted(state) && NoEmptyKey(state)
    ensures Sorted(LoadRecords(bs, records, state)) && NoEmptyKey(LoadRecords(bs, records, state))
    decreases records
  {
    hide Put, ReadChunk, Less;
    if records > 0 && ReadRecord(bs).More? {
      var r := ReadRecord(bs).record;
      PutSorted(state, r.key, r.value);
      PutKeeps(state, r.key, r.value);
      LoadedIsWellFormed(ReadRecord(bs).rest, records - 1, Put(state, r.key, r.value));
    }
  }

  /** The round trip over any previous file content restores the state exactly if no key is
      empty. */
  lemma RoundTrip(s: State, prior: seq<byte>)
    requires Sorted(s) && Fits(s)
    ensures Load(Overwrite(prior, Save(s))) == s <==> NoEmptyKey(s)
  {
    hide Encode, Number, Pow256, Leftover, ReadRecord, EncodeEntries, Less;
    LoadOverwritten(s, Leftover(prior, Save(s)));
    OnlyFirstEmpty(s);
    var file := Overwrite(prior, Save(s));
    if s != [] && s[0].key == [] {
      LoadedIsWellFormed(file[WORD..], Number(file[..WORD]), []);
    }
  }

  /** What goes wrong with an empty key: a record of the old file that starts where the new
      text ends is read into the state, and can replace a value just saved. */
  lemma StaleRecordIsRead(s: State, head: seq<byte>, r: Record, tail: seq<byte>)
    requires Sorted(s) && Fits(s) && !NoEmptyKey(s) && |head| == |Save(s)|
    requires r.key != [] && |r.key| < Pow256(WORD) && |r.value| < Pow256(WORD)
    ensures Load(Overwrite(head + (EncodeRecord(r) + tail), Save(s))) == Put(Written(s), r.key, r.value)
  {
    hide Encode, Number, Pow256, Save, EncodeRecord, ReadRecord, Put, Less;
    OnlyFirstEmpty(s);
    var leftover := EncodeRecord(r) + tail;
    assert (head + leftover)[|Save(s)|..] == leftover;
    assert Overwrite(head + leftover, Save(s)) == Save(s) + leftover;
    LoadOverwritten(s, leftover);
    ReadBack(r, tail);
    assert LoadRecords(tail, 0, Put(Written(s), r.key, r.value)) == Put(Written(s), r.key, r.value);
  }

  // ----- damaged and foreign files -----

  /** A record takes at least 17 bytes, so a file cannot hold more of them than it has room
      for, whatever its count says. */
  function RecordsRead(bs: seq<byte>, records: nat): (n: nat)
    ensures n <= records && 17 * n <= |bs|
    decreases records
  {
    if records == 0 then 0 else
    match ReadRecord(bs)
    case Stop => 0
    case More(_, rest) => 1 + RecordsRead(rest, records - 1)
  }

  /** A claimed count beyond the records present changes nothing. */
  lemma {:induction false} CountIsBounded(bs: seq<byte>, records: nat, state: State)
    ensures LoadRecords(bs, records, state) == LoadRecords(bs, RecordsRead(bs, records), state)
    decreases records
  {
    hide ReadRecord, Put;
    if records > 0 && ReadRecord(bs).More? {
      var r := ReadRecord(bs).record;
      CountIsBounded(ReadRecord(bs).rest, records - 1, Put(state, r.key, r.value));
    }
  }

  lemma ReadFits(bs: seq<byte>)
    ensures ReadRecord(bs).More? ==>
              |ReadRecord(bs).record.key| < Pow256(WORD) && |ReadRecord(bs).record.value| < Pow256(WORD)
  {
    hide Pow256;
  }

  lemma {:induction false} LoadedFits(bs: seq<byte>, records: nat, state: State)
    requires Fits(state) && |state| + records < Pow256(WORD)
    ensures Fits(LoadRecords(bs, records, state))
    decreases records
  {
    hide Put, Pow256, Number, Fits, ReadRecord;
    ReadFits(bs);
    if records > 0 && ReadRecord(bs).More? {
      var r := ReadRecord(bs).record;
      PutKeeps(state, r.key, r.value);
      LoadedFits(ReadRecord(bs).rest, records - 1, Put(state, r.key, r.value));
    }
  }

  /** Whatever bytes a file holds, loading it yields a sorted map with no empty key, and
      saving that and loading again changes nothing. */
  lemma LoadIsStable(file: seq<byte>, prior: seq<byte>)
    ensures Sorted(Load(file)) && NoEmptyKey(Load(file)) && Fits(Load(file))
    ensures Load(Overwrite(prior, Save(Load(file)))) == Load(file)
  {
    hide LoadRecords, Save, Overwrite, Less, Pow256;
    if |file| >= WORD {
      LoadedIsWellFormed(file[WORD..], Number(file[..WORD]), []);
      LoadedFits(file[WORD..], Number(file[..WORD]), []);
    }
    RoundTrip(Load(file), prior);
  }

  // ----- truncated files -----

  /** How many whole entries the first `m` bytes of the encoded entries hold. */
  function WholeEntries(s: State, m: nat): (k: nat)
    ensures k <= |s|
  {
    if s == [] || m < |EncodeEntry(s[0])| then 0 else 1 + WholeEntries(s[1..], m - |EncodeEntry(s[0])|)
  }

  lemma CutChunk(bs: seq<byte>, m: nat, tail: seq<byte>)
    requires |bs| < Pow256(WORD) && m < WORD + |bs|
    ensures ReadChunk((Encode(|bs|, WORD) + bs + tail)[..m]) == NoChunk
  {
    hide Encode, Number, Pow256;
    var all := Encode(|bs|, WORD) + bs + tail;
    if m >= WORD {
      DecodeEncode(|bs|, WORD);
      assert all[..m][..WORD] == Encode(|bs|, WORD);
    }
  }

  lemma CutRecord(r: Record, m: nat, tail: seq<byte>)
    requires r.key != [] && |r.key| < Pow256(WORD) && |r.value| < Pow256(WORD)
    requires m < |EncodeRecord(r)|
    ensures ReadRecord((EncodeRecord(r) + tail)[..m]) == Stop
  {
    hide Encode, Number, Pow256, ReadChunk;
    var rest := Encode(|r.value|, WORD) + r.value + tail;
    var all := Encode(|r.key|, WORD) + r.key + rest;
    assert EncodeRecord(r) + tail == all;
    var k := WORD + |r.key|;
    if m < k {
      CutChunk(r.key, m, rest);
    } else {
      assert all[..m] == Encode(|r.key|, WORD) + r.key + rest[..m - k];
      ReadChunkBack(r.key, rest[..m - k]);
      CutChunk(r.value, m - k, tail);
    }
  }

  lemma NothingToRead(n: nat, acc: State)
    ensures LoadRecords([], n, acc) == acc
  {
  }

  /** Reading a whole first entry leaves the rest of a cut text. */
  lemma ReadFirst(s: State, m: nat, n: nat, acc: State)
    requires Fits(s) && NoEmptyKey(s) && Sorted(acc + s) && n >= |s| > 0
    requires |EncodeEntry(s[0])| <= m <= |EncodeEntries(s)|
    ensures var k := m - |EncodeEntry(s[0])|;
            && k <= |EncodeEntries(s[1..])|
            && LoadRecords(EncodeEntries(s)[..m], n, acc)
               == LoadRecords(EncodeEntries(s[1..])[..k], n - 1, acc + [s[0]])
  {
    hide Encode, Number, Pow256, ReadRecord, EncodeRecord, Put, Less;
    var first, tail := EncodeRecord(s[0]), EncodeEntries(s[1..]);
    assert EncodeEntries(s)[..m] == first + tail[..m - |first|];
    ReadBack(s[0], tail[..m - |first|]);
    assert forall i :: 0 <= i < |acc| ==> acc[i] == (acc + s)[i];
    assert (acc + s)[|acc|] == s[0];
    PutLast(acc, s[0].key, s[0].value);
  }

  lemma {:induction false} LoadCutEntries(s: State, m: nat, n: nat, acc: State)
    requires Fits(s) && NoEmptyKey(s) && Sorted(acc + s) && n >= |s| && m <= |EncodeEntries(s)|
    ensures LoadRecords(EncodeEntries(s)[..m], n, acc) == acc + s[..WholeEntries(s, m)]
    decreases |s|
  {
    hide Encode, Number, Pow256, ReadRecord, EncodeRecord, Put, Less, LoadRecords;
    if s == [] {
      NothingToRead(n, acc);
    } else if m < |EncodeEntry(s[0])| {
      CutFirst(s, m, n, acc);
      assert acc + s[..0] == acc;
    } else {
      ReadFirst(s, m, n, acc);
      assert (acc + [s[0]]) + s[1..] == acc + s;
      var k := m - |EncodeEntry(s[0])|;
      LoadCutEntries(s[1..], k, n - 1, acc + [s[0]]);
      var w := WholeEntries(s[1..], k);
      assert acc + [s[0]] + s[1..][..w] == acc + s[..w + 1];
    }
  }

  lemma CutFirst(s: State, m: nat, n: nat, acc: State)
    requires Fits(s) && NoEmptyKey(s) && s != [] && m < |EncodeEntry(s[0])|
    ensures LoadRecords(EncodeEntries(s)[..m], n, acc) == acc
  {
    hide Encode, Number, Pow256, ReadRecord, EncodeRecord;
    CutRecord(s[0], m, EncodeEntries(s[1..]));
  }

  /** Loading the first `m` bytes of a saved file yields the written entries cut to the first
      ones, as many as are whole: never a partial record, never a wrong value. Only an entry
      with an empty key is not written. */
  lemma LoadPrefix(s: State, m: nat)
    requires Sorted(s) && Fits(s) && m <= |Save(s)|
    ensures Load(Save(s)[..m]) == if m < WORD then [] else Written(s)[..WholeEntries(Written(s), m - WORD)]
  {
    hide Load, Save, LoadRecords, EncodeRecord, WholeEntries, Less, Pow256;
    if m < WORD {
      CutHeader(Save(s)[..m]);
    } else {
      SavedCut(s, m);
      OnlyFirstEmpty(s);
      assert EncodeEntries(s) == EncodeEntries(Written(s));
      assert [] + Written(s) == Written(s);
      LoadCutEntries(Written(s), m - WORD, |s|, []);
    }
  }

  lemma CutHeader(file: seq<byte>)
    requires |file| < WORD
    ensures Load(file) == []
  {
  }

  lemma SavedCut(s: State, m: nat)
    requires |s| < Pow256(WORD) && WORD <= m <= |Save(s)|
    ensures m - WORD <= |EncodeEntries(s)|
    ensures Load(Save(s)[..m]) == LoadRecords(EncodeEntries(s)[..m - WORD], |s|, [])
  {
    hide Encode, Number, Pow256, LoadRecords, EncodeEntries;
    var cut := Save(s)[..m];
    DecodeEncode(|s|, WORD);
    assert cut[..WORD] == Encode(|s|, WORD) && cut[WORD..] == EncodeEntries(s)[..m - WORD];
  }

  // ----- the order of the keys and the layout of the file, written out -----

  /** The strings agree up to position `k`, where `a` ends or has the smaller byte. */
  ghost predicate SmallerAt(a: Key, b: Key, k: nat) {
    k <= |a| && k < |b| && a[..k] == b[..k] && (k == |a| || a[k] < b[k])
  }

  /** The keys stand in the order of a dictionary. */
  lemma {:induction false} LessMeans(a: Key, b: Key)
    ensures Less(a, b) <==> exists k: nat :: SmallerAt(a, b, k)
  {
    if a == [] || b == [] || a[0] != b[0] {
      if b != [] && (a == [] || a[0] < b[0]) { assert SmallerAt(a, b, 0); }
    } else {
      LessMeans(a[1..], b[1..]);
      if k: nat :| SmallerAt(a[1..], b[1..], k) {
        assert a[..k + 1] == [a[0]] + a[1..][..k] && b[..k + 1] == [b[0]] + b[1..][..k];
        assert SmallerAt(a, b, k + 1);
      }
      if k: nat :| SmallerAt(a, b, k) {
        assert k > 0;
        assert a[1..][..k - 1] == a[..k][1..] && b[1..][..k - 1] == b[..k][1..];
        assert SmallerAt(a[1..], b[1..], k - 1);
      }
    }
  }

  /** At position `at` the file holds the length of the key in eight bytes, the key, the length of
      the value in eight bytes and the value. */
  ghost predicate RecordAt(file: seq<byte>, at: nat, r: Record) {
    var k, v := |r.key|, |r.value|;
    && at + 16 + k + v <= |file|
    && Eight(file, at) == k && file[at + 8..at + 8 + k] == r.key
    && Eight(file, at + 8 + k) == v && file[at + 16 + k..at + 16 + k + v] == r.value
  }

  /** Where the record of entry `i` begins: after the count and the records before it. */
  function Offset(s: State, i: nat): nat
    requires i <= |s|
  {
    if i == 0 then 8
    else Offset(s, i - 1) + if s[i - 1].key == [] then 0 else 16 + |s[i - 1].key| + |s[i - 1].value|
  }

  lemma EightAt(bs: seq<byte>, at: nat)
    requires at + 8 <= |bs|
    ensures Number(bs[at..at + 8]) == Eight(bs, at)
  {
    hide Number;
    NumberIs(bs[at..at + 8]);
  }

  lemma EncodedAt(pre: seq<byte>, n: nat, post: seq<byte>)
    requires n < Pow256(WORD)
    ensures |pre + Encode(n, WORD) + post| == |pre| + 8 + |post|
    ensures Eight(pre + Encode(n, WORD) + post, |pre|) == n
  {
    hide Number, Encode, Pow256, Eight;
    var all := pre + Encode(n, WORD) + post;
    DecodeEncode(n, WORD);
    EightAt(all, |pre|);
    assert all[|pre|..|pre| + 8] == Encode(n, WORD);
  }

  lemma EncodedRecordAt(pre: seq<byte>, r: Record, post: seq<byte>)
    requires |r.key| < Pow256(WORD) && |r.value| < Pow256(WORD)
    ensures RecordAt(pre + EncodeRecord(r) + post, |pre|, r)
    ensures |EncodeRecord(r)| == 16 + |r.key| + |r.value|
  {
    hide Encode, Pow256, Eight;
    var file, k, v := pre + EncodeRecord(r) + post, Encode(|r.key|, WORD), Encode(|r.value|, WORD);
    var a, b, c := pre + k, pre + k + r.key, pre + k + r.key + v;
    RecordParts(pre, k, r.key, v, r.value, post);
    EncodedAt(pre, |r.key|, r.key + v + r.value + post);
    EncodedAt(b, |r.value|, r.value + post);
    SliceOf(a, r.key, v + r.value + post);
    SliceOf(c, r.value, post);
  }

  lemma SliceOf(a: seq<byte>, b: seq<byte>, c: seq<byte>)
    ensures (a + b + c)[|a|..|a| + |b|] == b
  {
  }

  lemma RecordParts(pre: seq<byte>, k: seq<byte>, key: seq<byte>, v: seq<byte>, value: seq<byte>, post: seq<byte>)
    ensures var file := pre + (k + key + v + value) + post;
            && file == pre + k + (key + v + value + post) && file == (pre + k) + key + (v + value + post)
            && file == (pre + k + key) + v + (value + post) && file == (pre + k + key + v) + value + post
  {
  }

  lemma {:induction false} EntriesSnoc(s: State, i: nat)
    requires i < |s|
    ensures EncodeEntries(s[..i + 1]) == EncodeEntries(s[..i]) + EncodeEntry(s[i])
  {
    hide EncodeEntry;
    if i == 0 {
      assert s[..1] == [s[0]] && s[..1][1..] == [];
    } else {
      assert s[..i + 1][1..] == s[1..][..i] && s[..i][1..] == s[1..][..i - 1];
      EntriesSnoc(s[1..], i - 1);
    }
  }

  lemma {:induction false} EntriesSize(s: State, i: nat)
    requires i <= |s|
    ensures WORD + |EncodeEntries(s[..i])| == Offset(s, i)
  {
    hide EncodeEntry, EncodeEntries;
    if i == 0 {
      assert s[..0] == [];
      NoEntries();
    } else {
      EntriesSize(s, i - 1);
      EntriesSnoc(s, i - 1);
      EntrySize(s[i - 1]);
    }
  }

  lemma NoEntries()
    ensures EncodeEntries([]) == []
  {
  }

  lemma EntrySize(r: Record)
    ensures |EncodeEntry(r)| == if r.key == [] then 0 else 16 + |r.key| + |r.value|
  {
    hide Encode;
  }

  lemma {:induction false} EntriesConcat(a: State, b: State)
    ensures EncodeEntries(a + b) == EncodeEntries(a) + EncodeEntries(b)
  {
    hide EncodeEntry;
    if a == [] {
      assert a + b == b;
    } else {
      assert (a + b)[1..] == a[1..] + b;
      EntriesConcat(a[1..], b);
    }
  }

  /** The file that is written: the number of entries in eight bytes, least significant first,
      then one record for each entry with a non-empty key, in order and without gaps. */
  lemma FileLayout(s: State)
    requires Fits(s)
    ensures |Save(s)| == Offset(s, |s|) && |Save(s)| >= 8 && Eight(Save(s), 0) == |s|
    ensures forall i :: 0 <= i < |s| && s[i].key != [] ==> RecordAt(Save(s), Offset(s, i), s[i])
  {
    hide Encode, Pow256, Eight, EncodeEntries, RecordAt, Offset;
    EntriesSize(s, |s|);
    assert s[..|s|] == s;
    assert [] + Encode(|s|, WORD) + EncodeEntries(s) == Save(s);
    EncodedAt([], |s|, EncodeEntries(s));
    forall i | 0 <= i < |s| && s[i].key != [] ensures RecordAt(Save(s), Offset(s, i), s[i]) {
      EntryLayout(s, i);
    }
  }

  lemma EntryLayout(s: State, i: nat)
    requires Fits(s) && i < |s| && s[i].key != []
    ensures RecordAt(Save(s), Offset(s, i), s[i])
  {
    hide Encode, Pow256, EncodeEntries, EncodeRecord, RecordAt, Offset;
    EntriesSize(s, i);
    EntriesSnoc(s, i);
    assert s == s[..i + 1] + s[i + 1..];
    EntriesConcat(s[..i + 1], s[i + 1..]);
    var pre, post := Encode(|s|, WORD) + EncodeEntries(s[..i]), EncodeEntries(s[i + 1..]);
    assert Save(s) == pre + EncodeRecord(s[i]) + post;
    EncodedRecordAt(pre, s[i], post);
  }

  lemma ChunkIs(bs: seq<byte>)
    ensures match ReadChunk(bs)
            case NoChunk => |bs| < 8 || |bs| < 8 + Eight(bs, 0)
            case Chunk(b, rest) =>
              |bs| >= 8 && Eight(bs, 0) == |b| && |bs| >= 8 + |b| && b == bs[8..8 + |b|] && rest == bs[8 + |b|..]
  {
    hide Number, Eight;
    if |bs| >= 8 {
      EightAt(bs, 0);
      assert bs[..8] == bs[0..8];
    }
  }

  /** A record is read exactly if it is there, whole and with a non-empty key. */
  lemma ReadsWhatIsThere(bs: seq<byte>, r: Record)
    ensures ReadRecord(bs).More? && ReadRecord(bs).record == r <==> r.key != [] && RecordAt(bs, 0, r)
    ensures ReadRecord(bs).More? && ReadRecord(bs).record == r ==>
              |bs| >= 16 + |r.key| + |r.value| && ReadRecord(bs).rest == bs[16 + |r.key| + |r.value|..]
  {
    hide ReadChunk, Eight;
    ChunkIs(bs);
    if ReadChunk(bs).Chunk? {
      var k, rest := |ReadChunk(bs).bytes|, ReadChunk(bs).rest;
      ChunkIs(rest);
      if |rest| >= 8 { EightShifts(bs, 8 + k); }
    }
  }

  lemma EightShifts(bs: seq<byte>, at: nat)
    requires at + 8 <= |bs|
    ensures Eight(bs[at..], 0) == Eight(bs, at)
  {
  }

  /** The first eight bytes of a file are the number of records to read; a shorter file is
      empty. */
  lemma LoadsTheCount(file: seq<byte>)
    ensures |file| < 8 ==> Load(file) == []
    ensures |file| >= 8 ==> Eight(file, 0) >= 0 && Load(file) == LoadRecords(file[8..], Eight(file, 0), [])
  {
    hide Number, LoadRecords, Eight;
    if |file| >= 8 {
      EightAt(file, 0);
      assert file[..8] == file[0..8];
    }
  }
}
