/** The state variables of a plugin: typed access, and the object that keeps them in memory
    and in a file. */
module PluginState {
  import opened Events
  import opened Bytes
  import opened StateStore

  /** What the overloads of SetStateVar store; a float is its four bytes. */
  datatype Var = ULong(n: nat) | Float(bits: seq<byte>) | Text(text: seq<byte>) | Raw(bytes: seq<byte>)

  const FLOAT_SIZE: nat := 4

  ghost predicate ValidVar(v: Var) {
    match v
    case ULong(n) => n < Pow256(WORD)
    case Float(bits) => |bits| == FLOAT_SIZE
    case Text(text) => |text| < Pow256(WORD)
    case Raw(bytes) => |bytes| < Pow256(WORD)
  }

  function VarBytes(v: Var): seq<byte> {
    match v
    case ULong(n) => Encode(n, WORD)
    case Float(bits) => bits
    case Text(text) => text
    case Raw(bytes) => bytes
  }

  /** The typed reads: a number or a float must have the right size, text takes any size, and
      a raw read takes at most `room` bytes. */
  function ReadULong(s: State, key: Key): Option<nat> {
    match Find(s, key)
    case None => None
    case Some(bs) => if |bs| == WORD then Some(Number(bs)) else None
  }

  function ReadFloat(s: State, key: Key): Option<seq<byte>> {
    match Find(s, key)
    case None => None
    case Some(bs) => if |bs| == FLOAT_SIZE then Some(bs) else None
  }

  function ReadText(s: State, key: Key): Option<seq<byte>> {
    Find(s, key)
  }

  function ReadRaw(s: State, key: Key, room: nat): Option<seq<byte>> {
    match Find(s, key)
    case None => None
    case Some(bs) => Some(if |bs| < room then bs else bs[..room])
  }

  // ----- the store refines a plain map with a snapshot -----

  datatype Op = Set(key: Key, v: Var) | SaveState | LoadState

  datatype Store = Store(state: State, file: seq<byte>)

  function Apply(st: Store, op: Op): Store {
    match op
    case Set(key, v) => st.(state := Put(st.state, key, VarBytes(v)))
    case SaveState => st.(file := Overwrite(st.file, Save(st.state)))
    case LoadState => st.(state := Load(st.file))
  }

  function Run(st: Store, ops: seq<Op>): Store {
    if ops == [] then st else Apply(Run(st, ops[..|ops| - 1]), ops[|ops| - 1])
  }

  /** The reference: variables in memory, and the copy last saved. */
  datatype Memory = Memory(vars: map<Key, seq<byte>>, saved: map<Key, seq<byte>>)

  function Remember(m: Memory, op: Op): Memory {
    match op
    case Set(key, v) => m.(vars := m.vars[key := VarBytes(v)])
    case SaveState => m.(saved := m.vars)
    case LoadState => m.(vars := m.saved)
  }

  function Recall(m: Memory, ops: seq<Op>): Memory {
    if ops == [] then m else Remember(Recall(m, ops[..|ops| - 1]), ops[|ops| - 1])
  }

  function ToMap(s: State): map<Key, seq<byte>> {
    if s == [] then map[] else ToMap(s[1..])[s[0].key := s[0].value]
  }

  function Lookup(m: map<Key, seq<byte>>, key: Key): Option<seq<byte>> {
    if key in m then Some(m[key]) else None
  }

  ghost predicate Agrees(s: State, m: map<Key, seq<byte>>) {
    forall key :: Find(s, key) == Lookup(m, key)
  }

  lemma {:induction false} ToMapAgrees(s: State)
    ensures Agrees(s, ToMap(s))
  {
    if s != [] { ToMapAgrees(s[1..]); }
  }

  /** The state obeys the map's order and has room for `n` more entries. */
  ghost predicate Good(s: State, n: nat) {
    Sorted(s) && Fits(s) && |s| + n < Pow256(WORD)
  }

  ghost predicate Proper(op: Op) {
    op.Set? ==> |op.key| < Pow256(WORD) && ValidVar(op.v)
  }

  ghost predicate ProperOps(ops: seq<Op>) {
    forall i :: 0 <= i < |ops| ==> Proper(ops[i])
  }

  ghost predicate Refines(st: Store, m: Memory, room: nat) {
    && Good(st.state, room) && Good(Load(st.file), room)
    && Agrees(st.state, m.vars) && Agrees(Load(st.file), m.saved)
  }

  /** A save finds no variable under the empty key. */
  predicate CleanSave(m: Memory, op: Op) {
    op.SaveState? ==> [] !in m.vars
  }

  ghost predicate CleanSaves(m: Memory, ops: seq<Op>) {
    forall i :: 0 <= i < |ops| ==> CleanSave(Recall(m, ops[..i]), ops[i])
  }

  lemma {:induction false} FindEmpty(s: State)
    ensures NoEmptyKey(s) <==> Find(s, []) == None
  {
    if s != [] && s[0].key != [] {
      FindEmpty(s[1..]);
      assert forall i :: 0 < i < |s| ==> s[i] == s[1..][i - 1];
    }
  }

  /** No load yields a variable under the empty key: what was set there is lost. */
  lemma EmptyKeyIsLost(file: seq<byte>)
    ensures Find(Load(file), []) == None
  {
    hide Load, Save, Overwrite, Sorted, Fits;
    LoadIsStable(file, []);
    FindEmpty(Load(file));
  }

  lemma SetRefines(st: Store, m: Memory, key: Key, v: Var, room: nat)
    requires Refines(st, m, room + 1) && Proper(Set(key, v))
    ensures Refines(Apply(st, Set(key, v)), Remember(m, Set(key, v)), room)
  {
    hide Put, Find, Load, Pow256, Sorted;
    var bs := VarBytes(v);
    assert |bs| < Pow256(WORD) by { WordIsBig(); }
    PutSorted(st.state, key, bs);
    PutKeeps(st.state, key, bs);
    forall k ensures Find(Put(st.state, key, bs), k) == Lookup(m.vars[key := bs], k) {
      PutFind(st.state, key, bs, k);
    }
  }

  lemma WordIsBig()
    ensures Pow256(WORD) > 256
  {
  }

  lemma SaveRefines(st: Store, m: Memory, room: nat)
    requires Refines(st, m, room + 1)
    ensures Refines(Apply(st, SaveState), Remember(m, SaveState), room) <==> CleanSave(m, SaveState)
  {
    hide Load, Save, Overwrite, Pow256, Sorted, Fits, Find;
    RoundTrip(st.state, st.file);
    FindEmpty(st.state);
    EmptyKeyIsLost(Overwrite(st.file, Save(st.state)));
    assert Find(st.state, []) == Lookup(m.vars, []);
  }

  /** One step follows the reference exactly if it is not a save with a variable under the
      empty key. */
  lemma StepRefines(st: Store, m: Memory, op: Op, room: nat)
    requires Refines(st, m, room + 1) && Proper(op)
    ensures Refines(Apply(st, op), Remember(m, op), room) <==> CleanSave(m, op)
  {
    hide Put, Load, Save, Overwrite, Pow256, Agrees, VarBytes;
    match op {
      case Set(key, v) => SetRefines(st, m, key, v, room);
      case SaveState => SaveRefines(st, m, room);
      case LoadState =>
    }
  }

  lemma {:induction false} CleanRunRefines(st: Store, m: Memory, ops: seq<Op>, room: nat)
    requires Refines(st, m, room + |ops|) && ProperOps(ops) && CleanSaves(m, ops)
    ensures Refines(Run(st, ops), Recall(m, ops), room)
    decreases |ops|
  {
    hide Refines, Apply, Remember, CleanSave;
    if ops != [] {
      var before := ops[..|ops| - 1];
      assert forall i :: 0 <= i < |before| ==> before[..i] == ops[..i];
      CleanRunRefines(st, m, before, room + 1);
      StepRefines(Run(st, before), Recall(m, before), ops[|ops| - 1], room);
    }
  }

  /** The store agrees with the reference after every step of the run. */
  ghost predicate Follows(st: Store, m: Memory, ops: seq<Op>, room: nat) {
    forall i :: 0 <= i <= |ops| ==> Refines(Run(st, ops[..i]), Recall(m, ops[..i]), room + |ops| - i)
  }

  /** Whatever variables are set, and however often the state is saved over the same file and
      loaded from it, the store behaves like a map with a snapshot, all along the run, if and
      only if no save finds a variable under the empty key. */
  lemma StoreRefines(st: Store, m: Memory, ops: seq<Op>, room: nat)
    requires Refines(st, m, room + |ops|) && ProperOps(ops)
    ensures Follows(st, m, ops, room) <==> CleanSaves(m, ops)
  {
    hide Refines, Apply, Remember, CleanSave, Proper;
    if CleanSaves(m, ops) {
      forall i | 0 <= i <= |ops| ensures Refines(Run(st, ops[..i]), Recall(m, ops[..i]), room + |ops| - i) {
        assert forall k :: 0 <= k < i ==> ops[..i][..k] == ops[..k];
        CleanRunRefines(st, m, ops[..i], room + |ops| - i);
      }
    }
    if Follows(st, m, ops, room) {
      forall i | 0 <= i < |ops| ensures CleanSave(Recall(m, ops[..i]), ops[i]) {
        assert ops[..i + 1][..i] == ops[..i];
        StepRefines(Run(st, ops[..i]), Recall(m, ops[..i]), ops[i], room + |ops| - i - 1);
      }
    }
  }

  /** Opening a state file loads it: a good start whatever the file holds. */
  lemma OpenRefines(file: seq<byte>, room: nat)
    requires |Load(file)| + room < Pow256(WORD)
    ensures var vars := ToMap(Load(file)); Refines(Store(Load(file), file), Memory(vars, vars), room)
  {
    hide Load, Pow256, Agrees, ToMap;
    LoadIsStable(file, []);
    ToMapAgrees(Load(file));
  }

  // ----- what is read is what was set last -----

  ghost predicate Untouched(ops: seq<Op>, key: Key) {
    forall i :: 0 <= i < |ops| && ops[i].Set? ==> ops[i].key != key
  }

  ghost predicate SavedBeforeLoaded(ops: seq<Op>) {
    forall i :: 0 <= i < |ops| && ops[i].LoadState? ==> SaveState in ops[..i]
  }

  lemma {:induction false} Remembered(m: Memory, key: Key, bs: seq<byte>, later: seq<Op>)
    requires Lookup(m.vars, key) == Some(bs) && Untouched(later, key) && SavedBeforeLoaded(later)
    ensures Lookup(Recall(m, later).vars, key) == Some(bs)
    ensures SaveState in later ==> Lookup(Recall(m, later).saved, key) == Some(bs)
    decreases |later|
  {
    if later != [] {
      var before := later[..|later| - 1];
      assert forall i :: 0 <= i < |before| ==> before[..i] == later[..i];
      Remembered(m, key, bs, before);
    }
  }

  /** After a variable was set, and until it is set again, every load that follows a save
      leaves it as it was set, whatever the file held before, as long as no save finds a
      variable under the empty key. */
  lemma LastSetWins(file: seq<byte>, earlier: seq<Op>, key: Key, v: Var, later: seq<Op>)
    requires ProperOps(earlier) && Proper(Set(key, v)) && ProperOps(later)
    requires Untouched(later, key) && SavedBeforeLoaded(later)
    requires |Load(file)| + |earlier| + 1 + |later| < Pow256(WORD)
    requires var vars := ToMap(Load(file)); CleanSaves(Memory(vars, vars), earlier + [Set(key, v)] + later)
    ensures Find(Run(Store(Load(file), file), earlier + [Set(key, v)] + later).state, key) == Some(VarBytes(v))
  {
    hide Load, Pow256, VarBytes, Find, Lookup, Refines, Good, Recall, Run, ToMap;
    hide Proper, Untouched, SavedBeforeLoaded, CleanSave;
    var first, ops := earlier + [Set(key, v)], earlier + [Set(key, v)] + later;
    var vars := ToMap(Load(file));
    var st, m := Store(Load(file), file), Memory(vars, vars);
    OpenRefines(file, |ops|);
    CleanRunRefines(st, m, ops, 0);
    SetRecalled(m, earlier, key, v);
    RecallJoin(m, first, later);
    Remembered(Recall(m, first), key, VarBytes(v), later);
    FromReference(Run(st, ops), Recall(m, ops), key);
  }

  lemma SetRecalled(m: Memory, earlier: seq<Op>, key: Key, v: Var)
    ensures Lookup(Recall(m, earlier + [Set(key, v)]).vars, key) == Some(VarBytes(v))
  {
  }

  lemma FromReference(st: Store, m: Memory, key: Key)
    requires Refines(st, m, 0)
    ensures Find(st.state, key) == Lookup(m.vars, key)
  {
  }

  lemma {:induction false} RecallJoin(m: Memory, a: seq<Op>, b: seq<Op>)
    ensures Recall(m, a + b) == Recall(Recall(m, a), b)
    decreases |b|
  {
    if b == [] {
      assert a + b == a;
    } else {
      assert (a + b)[..|a + b| - 1] == a + b[..|b| - 1];
      RecallJoin(m, a, b[..|b| - 1]);
    }
  }

  /** Each typed read returns what the matching set stored, a raw read if it has room for it;
      a number is not taken for a float nor a float for a number. */
  lemma TypedReads(s: State, key: Key, v: Var, room: nat)
    requires ValidVar(v) && Find(s, key) == Some(VarBytes(v))
    ensures v.ULong? ==> ReadULong(s, key) == Some(v.n) && ReadFloat(s, key) == None
    ensures v.Float? ==> ReadFloat(s, key) == Some(v.bits) && ReadULong(s, key) == None
    ensures v.Text? ==> ReadText(s, key) == Some(v.text)
    ensures v.Raw? && room >= |v.bytes| ==> ReadRaw(s, key, room) == Some(v.bytes)
  {
    hide Encode, Number, Pow256, Find;
    match v {
      case ULong(n) => DecodeEncode(n, WORD);
      case Raw(bytes) => assert bytes[..|bytes|] == bytes;
      case _ =>
    }
  }

  lemma {:induction false} FindAbsent(s: State, key: Key)
    requires forall i :: 0 <= i < |s| ==> s[i].key != key
    ensures Find(s, key) == None
  {
    if s != [] { FindAbsent(s[1..], key); }
  }

  lemma {:induction false} FindAt(s: State, i: nat)
    requires Sorted(s) && i < |s|
    ensures Find(s, s[i].key) == Some(s[i].value)
  {
    if i > 0 {
      assert Less(s[0].key, s[i].key);
      LessIrreflexive(s[i].key);
      FindAt(s[1..], i - 1);
    }
  }

  /** No read finds a key that no entry has. */
  lemma AbsentIsNotRead(s: State, key: Key, room: nat)
    requires forall i :: 0 <= i < |s| ==> s[i].key != key
    ensures ReadULong(s, key) == None && ReadFloat(s, key) == None
    ensures ReadText(s, key) == None && ReadRaw(s, key, room) == None
  {
    FindAbsent(s, key);
  }

  /** What each read makes of an entry: a number exactly if it has eight bytes, a float exactly
      if it has four, the text always, and of raw bytes as many as there are and fit. */
  lemma ReadsTheEntry(s: State, i: nat, room: nat)
    requires Sorted(s) && i < |s|
    ensures var key, bs := s[i].key, s[i].value;
            && (|bs| == 8 ==> ReadULong(s, key).Some? && ReadULong(s, key).value == Eight(bs, 0))
            && (|bs| != 8 ==> ReadULong(s, key) == None)
            && ReadFloat(s, key) == (if |bs| == 4 then Some(bs) else None)
            && ReadText(s, key) == Some(bs)
            && ReadRaw(s, key, room).Some?
            && |ReadRaw(s, key, room).value| == (if room < |bs| then room else |bs|)
            && ReadRaw(s, key, room).value == bs[..|ReadRaw(s, key, room).value|]
  {
    hide Number, Find, Eight;
    FindAt(s, i);
    NumberIs(s[i].value);
  }

  // ----- the objects -----

  /** An open file: its content and the position of the next read or write. */
  class StateFile {
    var data: seq<byte>
    var pos: nat

    constructor (data: seq<byte>)
      ensures this.data == data && pos == 0
    {
      this.data, pos := data, 0;
    }

    method Rewind()
      modifies this`pos
      ensures pos == 0
    {
      pos := 0;
    }

    /** Read exactly `n` bytes, or fail at the end of the file. */
    method Read(n: nat) returns (ok: bool, bs: seq<byte>)
      requires pos <= |data|
      modifies this`pos
      ensures pos <= |data|
      ensures ok <==> old(pos) + n <= |data|
      ensures ok ==> bs == data[old(pos)..][..n] && pos == old(pos) + n
      ensures !ok ==> bs == []
    {
      if pos + n <= |data| {
        ok, bs := true, data[pos..][..n];
        pos := pos + n;
      } else {
        ok, bs := false, [];
        pos := |data|;
      }
    }

    method Write(bs: seq<byte>)
      requires pos <= |data|
      modifies this
      ensures pos == old(pos) + |bs| && pos <= |data|
      ensures data == old(data[..pos]) + bs + Leftover(old(data), old(data[..pos]) + bs)
      ensures |data| == if pos < |old(data)| then |old(data)| else pos
      ensures forall i :: 0 <= i < |data| ==>
                data[i] == if old(pos) <= i < pos then bs[i - old(pos)] else old(data)[i]
    {
      var text := data[..pos] + bs;
      data := text + (if |data| > |text| then data[|text|..] else []);
      pos := |text|;
    }
  }

  class Plugin {
    var state: State
    var file: StateFile?

    /** The entries stand in the order of the map. */
    ghost predicate Valid()
      reads this`state
    {
      Sorted(state)
    }

    constructor ()
      ensures Valid() && state == [] && file == null
    {
      state, file := [], null;
    }

    /** Read a length and that many bytes. */
    method ReadCounted(f: StateFile) returns (ok: bool, bs: seq<byte>)
      requires f.pos <= |f.data|
      modifies f`pos
      ensures f.pos <= |f.data|
      ensures match ReadChunk(old(f.data[f.pos..]))
              case NoChunk => !ok
              case Chunk(b, rest) => ok && bs == b && f.data[f.pos..] == rest
    {
      hide Number;
      bs := [];
      var header;
      ok, header := f.Read(WORD);
      if ok {
        ghost var rest := f.data[f.pos..];
        assert old(f.data[f.pos..])[WORD..] == rest;
        ok, bs := f.Read(Number(header));
      }
    }

    /** LoadState: without a file nothing happens; otherwise the state is what the file holds,
        up to the first record that is damaged or cut off. */
    method LoadState()
      modifies this`state, file
      ensures old(Valid()) ==> Valid()
      ensures file == null ==> state == old(state)
      ensures file != null ==> state == Load(file.data) && file.data == old(file.data)
    {
      if file == null { return; }
      var f: StateFile := file;
      f.Rewind();
      state := [];
      var ok, header := f.Read(WORD);
      if !ok { return; }
      assert f.data[0..][..WORD] == f.data[..WORD];
      LoadedIsWellFormed(f.data[WORD..], Number(header), []);
      LoadLoop(f, Number(header));
    }

    method LoadLoop(f: StateFile, records: nat)
      requires f == file && f.pos <= |f.data|
      modifies this`state, f`pos
      ensures f.pos <= |f.data| && state == LoadRecords(old(f.data[f.pos..]), records, old(state))
    {
      hide Put, ReadChunk, Number;
      var v := 0;
      while v < records
        invariant v <= records && f.pos <= |f.data|
        invariant LoadRecords(f.data[f.pos..], records - v, state)
               == LoadRecords(old(f.data[f.pos..]), records, old(state))
      {
        var ok, key := ReadCounted(f);
        if !ok || key == [] { return; }
        var value;
        ok, value := ReadCounted(f);
        if !ok { return; }
        state := Put(state, key, value);
        v := v + 1;
      }
    }

    /** SaveState: rewind and write over what is there. */
    method SaveState()
      modifies file
      ensures file != null ==> file.data == Overwrite(old(file.data), Save(state))
    {
      hide Encode, EncodeEntries, EncodeRecord, Leftover;
      if file == null { return; }
      var f: StateFile := file;
      ghost var prior, head := f.data, Encode(|state|, WORD);
      f.Rewind();
      f.Write(Encode(|state|, WORD));
      assert prior[..0] + head == head;
      EncodeNone(state, head);
      var i := 0;
      while i < |state|
        invariant i <= |state|
        invariant f.pos == |head + EncodeEntries(state[..i])|
        invariant f.data == Overwrite(prior, head + EncodeEntries(state[..i]))
      {
        EncodeNext(state, i, head);
        if state[i].key != [] {
          WriteRecord(f, state[i], prior, head + EncodeEntries(state[..i]));
        }
        i := i + 1;
      }
      assert state[..|state|] == state;
    }

    method WriteRecord(f: StateFile, r: Record, ghost prior: seq<byte>, ghost text: seq<byte>)
      requires f.pos == |text| && f.data == Overwrite(prior, text)
      modifies f
      ensures f.pos == |text + EncodeRecord(r)| && f.data == Overwrite(prior, text + EncodeRecord(r))
    {
      hide Encode, Overwrite;
      ghost var t1 := text + Encode(|r.key|, WORD);
      ghost var t2 := t1 + r.key;
      ghost var t3 := t2 + Encode(|r.value|, WORD);
      WriteNext(f, Encode(|r.key|, WORD), prior, text);
      WriteNext(f, r.key, prior, t1);
      WriteNext(f, Encode(|r.value|, WORD), prior, t2);
      WriteNext(f, r.value, prior, t3);
      ConcatFour(text, Encode(|r.key|, WORD), r.key, Encode(|r.value|, WORD), r.value);
    }

    method WriteNext(f: StateFile, bs: seq<byte>, ghost prior: seq<byte>, ghost text: seq<byte>)
      requires f.pos == |text| && f.data == Overwrite(prior, text)
      modifies f
      ensures f.pos == |text + bs| && f.data == Overwrite(prior, text + bs)
    {
      ghost var data := f.data;
      assert data[..|text|] == text;
      f.Write(bs);
      LeftoverNext(prior, text, bs);
    }

    /** SetStateVar: from now on the key reads the new value, and every other key what it read
        before. */
    method SetStateVar(key: Key, v: Var)
      requires Valid()
      modifies this`state
      ensures Valid() && state == Put(old(state), key, VarBytes(v))
      ensures forall k :: Find(state, k) == if k == key then Some(VarBytes(v)) else old(Find(state, k))
    {
      hide VarBytes;
      PutSorted(state, key, VarBytes(v));
      forall k ensures Find(Put(state, key, VarBytes(v)), k) == if k == key then Some(VarBytes(v)) else Find(state, k) {
        PutFind(state, key, VarBytes(v), k);
      }
      state := Put(state, key, VarBytes(v));
    }
  }

  lemma LeftoverNext(prior: seq<byte>, text: seq<byte>, bs: seq<byte>)
    ensures Leftover(Overwrite(prior, text), text + bs) == Leftover(prior, text + bs)
  {
  }

  lemma ConcatFour(t: seq<byte>, a: seq<byte>, b: seq<byte>, c: seq<byte>, d: seq<byte>)
    ensures t + (a + b + c + d) == t + a + b + c + d
  {
  }

  lemma EncodeNone(s: State, head: seq<byte>)
    ensures head + EncodeEntries(s[..0]) == head
  {
  }

  lemma EncodeNext(s: State, i: nat, head: seq<byte>)
    requires i < |s|
    ensures head + EncodeEntries(s[..i + 1])
         == if s[i].key == [] then head + EncodeEntries(s[..i])
            else head + EncodeEntries(s[..i]) + EncodeRecord(s[i])
  {
    hide EncodeRecord, EncodeEntries;
    EntriesSnoc(s, i);
    assert head + (EncodeEntries(s[..i]) + EncodeEntry(s[i])) == head + EncodeEntries(s[..i]) + EncodeEntry(s[i]);
  }
}
