/** Event filters of plugins: parsing the filter text, and the fan-out of a plugin event to
    the plugins whose filter names its source. */
module PluginFilter {
  import opened Events
  import Q = ClientQueue
  import opened EventBus

  // ----- names -----

  function LowerChar(c: char): char {
    if 'A' <= c <= 'Z' then (c as int + 32) as char else c
  }

  /** What strcasecmp sees of a string: the characters before the first NUL, in lower case. */
  function Folded(s: string): string {
    if s == "" || s[0] == '\0' then "" else [LowerChar(s[0])] + Folded(s[1..])
  }

  predicate SameName(a: string, b: string) {
    Folded(a) == Folded(b)
  }

  /** The same character, or the two cases of one letter. */
  predicate SameLetter(x: char, y: char) {
    || x == y
    || ('A' <= x <= 'Z' && y as int == x as int + 32)
    || ('A' <= y <= 'Z' && x as int == y as int + 32)
  }

  /** The length of a C string: up to the first NUL. */
  function NulAt(s: string): (n: nat)
    ensures n <= |s| && '\0' !in s[..n] && (n < |s| ==> s[n] == '\0')
  {
    if s == "" || s[0] == '\0' then 0 else 1 + NulAt(s[1..])
  }

  ghost predicate EqualIgnoringCase(a: string, b: string) {
    |a| == |b| && forall i :: 0 <= i < |a| ==> SameLetter(a[i], b[i])
  }

  lemma {:induction false} FoldedIs(s: string)
    ensures |Folded(s)| == NulAt(s) && forall i :: 0 <= i < NulAt(s) ==> Folded(s)[i] == LowerChar(s[i])
  {
    if s != "" && s[0] != '\0' { FoldedIs(s[1..]); }
  }

  lemma LowerMeans(x: char, y: char)
    ensures LowerChar(x) == LowerChar(y) <==> SameLetter(x, y)
  {
  }

  /** Two names are the same exactly if they are equal but for the case of letters, up to a NUL. */
  lemma SameNameMeans(a: string, b: string)
    ensures SameName(a, b) <==> EqualIgnoringCase(a[..NulAt(a)], b[..NulAt(b)])
  {
    hide LowerChar, SameLetter, NulAt;
    FoldedIs(a);
    FoldedIs(b);
    var x, y := a[..NulAt(a)], b[..NulAt(b)];
    if SameName(a, b) {
      forall i | 0 <= i < |x| ensures SameLetter(x[i], y[i]) { LowerMeans(x[i], y[i]); }
    }
    if EqualIgnoringCase(x, y) {
      forall i | 0 <= i < |x| ensures Folded(a)[i] == Folded(b)[i] { LowerMeans(x[i], y[i]); }
    }
  }

  // ----- the pieces of a filter text -----

  function BarAt(text: string): (i: nat)
    ensures i <= |text| && '|' !in text[..i]
    ensures i < |text| ==> text[i] == '|'
  {
    if text == "" || text[0] == '|' then 0 else 1 + BarAt(text[1..])
  }

  /** The text cut at every bar. */
  function Split(text: string): seq<string> {
    var i := BarAt(text);
    if i == |text| then [text] else [text[..i]] + Split(text[i + 1..])
  }

  function DropSpaces(s: string): string {
    if s != "" && s[0] == ' ' then DropSpaces(s[1..]) else s
  }

  function DropLastSpaces(s: string): string {
    if s != "" && s[|s| - 1] == ' ' then DropLastSpaces(s[..|s| - 1]) else s
  }

  /** A piece of spaces only becomes the empty name. */
  function Trim(s: string): string {
    DropLastSpaces(DropSpaces(s))
  }

  /** The names in a list of pieces: empty pieces are skipped, and so is the own name. */
  function NamesIn(pieces: seq<string>, own: string): seq<string> {
    if pieces == [] then [] else
    var n := |pieces| - 1;
    NamesIn(pieces[..n], own)
    + if pieces[n] == "" || SameName(Trim(pieces[n]), own) then [] else [Trim(pieces[n])]
  }

  /** What ParseEventFilter adds to the filter of plugin `own`. */
  function FilterNames(own: string, text: string): seq<string> {
    NamesIn(Split(text), own)
  }

  // ----- what the pieces are -----

  predicate AllSpaces(s: string) {
    forall i :: 0 <= i < |s| ==> s[i] == ' '
  }

  /** `t` is `s` without the spaces around it. */
  ghost predicate IsTrimmed(s: string, t: string) {
    && (t != "" ==> t[0] != ' ' && t[|t| - 1] != ' ')
    && exists a, b :: s == a + t + b && AllSpaces(a) && AllSpaces(b)
  }

  lemma {:induction false} DropSpacesFrom(s: string)
    ensures exists a :: s == a + DropSpaces(s) && AllSpaces(a)
    ensures DropSpaces(s) != "" ==> DropSpaces(s)[0] != ' '
  {
    if s != "" && s[0] == ' ' {
      DropSpacesFrom(s[1..]);
      var a :| s[1..] == a + DropSpaces(s[1..]) && AllSpaces(a);
      assert s == ([' '] + a) + DropSpaces(s) && AllSpaces([' '] + a);
    } else {
      assert s == "" + DropSpaces(s) && AllSpaces("");
    }
  }

  lemma {:induction false} DropLastSpacesFrom(s: string)
    ensures exists b :: s == DropLastSpaces(s) + b && AllSpaces(b)
    ensures DropLastSpaces(s) != "" ==> DropLastSpaces(s)[|DropLastSpaces(s)| - 1] != ' '
    decreases |s|
  {
    if s != "" && s[|s| - 1] == ' ' {
      var init := s[..|s| - 1];
      DropLastSpacesFrom(init);
      var b :| init == DropLastSpaces(init) + b && AllSpaces(b);
      assert s == DropLastSpaces(s) + (b + [' ']) && AllSpaces(b + [' ']);
    } else {
      assert s == DropLastSpaces(s) + "" && AllSpaces("");
    }
  }

  /** Trimming removes exactly the spaces around a piece. */
  lemma TrimTrims(s: string)
    ensures IsTrimmed(s, Trim(s))
  {
    hide DropSpaces, DropLastSpaces;
    DropSpacesFrom(s);
    var d := DropSpaces(s);
    DropLastSpacesFrom(d);
    var a :| s == a + d && AllSpaces(a);
    var b :| d == Trim(s) + b && AllSpaces(b);
    assert s == a + Trim(s) + b;
    if Trim(s) != "" { assert d[0] == Trim(s)[0]; }
  }

  /** `text[i..j]` is a maximal stretch without bars. */
  predicate IsPiece(text: string, i: nat, j: nat) {
    && i <= j <= |text| && '|' !in text[i..j]
    && (i == 0 || text[i - 1] == '|') && (j == |text| || text[j] == '|')
  }

  ghost predicate PieceIs(text: string, i: nat, j: nat, p: string) {
    IsPiece(text, i, j) && p == text[i..j]
  }

  /** The bars cut `p` out of the text. */
  ghost predicate IsCut(text: string, p: string) {
    exists i: nat, j: nat :: PieceIs(text, i, j, p)
  }

  lemma CutAtBar(text: string, p: string)
    requires BarAt(text) < |text|
    ensures var k := BarAt(text); IsCut(text, p) <==> p == text[..k] || IsCut(text[k + 1..], p)
  {
    hide BarAt, PieceIs;
    var k := BarAt(text);
    var rest := text[k + 1..];
    FirstPiece(text, k);
    if i: nat, j: nat :| PieceIs(rest, i, j, p) {
      ShiftPiece(text, k, i, j, p);
    }
    if i: nat, j: nat :| PieceIs(text, i, j, p) {
      PieceBeforeOrAfter(text, k, i, j, p);
    }
  }

  lemma FirstPiece(text: string, k: nat)
    requires k < |text| && text[k] == '|' && '|' !in text[..k]
    ensures PieceIs(text, 0, k, text[..k])
  {
  }

  lemma ShiftPiece(text: string, k: nat, i: nat, j: nat, p: string)
    requires k < |text| && text[k] == '|' && PieceIs(text[k + 1..], i, j, p)
    ensures PieceIs(text, k + 1 + i, k + 1 + j, p)
  {
    assert text[k + 1 + i..k + 1 + j] == text[k + 1..][i..j];
  }

  lemma {:induction false} SplitPieces(text: string, p: string)
    ensures p in Split(text) <==> IsCut(text, p)
    decreases |text|
  {
    hide IsCut;
    if BarAt(text) == |text| {
      WholePiece(text, p);
    } else {
      CutAtBar(text, p);
      SplitPieces(text[BarAt(text) + 1..], p);
    }
  }

  lemma WholePiece(text: string, p: string)
    requires '|' !in text[..|text|]
    ensures IsCut(text, p) <==> p == text
  {
    assert text[..|text|] == text && text[0..|text|] == text;
    assert PieceIs(text, 0, |text|, text);
    if i: nat, j: nat :| PieceIs(text, i, j, p) {
      assert i == 0 && j == |text|;
    }
  }

  lemma PieceBeforeOrAfter(text: string, k: nat, i: nat, j: nat, p: string)
    requires k < |text| && text[k] == '|' && '|' !in text[..k] && PieceIs(text, i, j, p)
    ensures p == text[..k] || (k < i <= j && PieceIs(text[k + 1..], i - k - 1, j - k - 1, p))
  {
    assert forall x :: 0 <= x < k ==> text[..k][x] == text[x];
    assert forall x :: i <= x < j ==> text[i..j][x - i] == text[x];
    if k < i {
      assert text[k + 1..][i - k - 1..j - k - 1] == text[i..j];
    }
  }

  lemma {:induction false} NamesAre(pieces: seq<string>, own: string, name: string)
    ensures name in NamesIn(pieces, own) <==>
              !SameName(name, own) && exists p :: p in pieces && p != "" && Trim(p) == name
    decreases |pieces|
  {
    hide SameName, Trim;
    if pieces != [] {
      var n := |pieces| - 1;
      NamesAre(pieces[..n], own, name);
      assert pieces == pieces[..n] + [pieces[n]];
    }
  }

  /** The parsed filter holds exactly the trimmed, non-empty pieces of the text other than
      the plugin's own name. */
  lemma FilterMeaning(own: string, text: string, name: string)
    ensures name in FilterNames(own, text) <==>
              !SameName(name, own) && exists p :: IsCut(text, p) && p != "" && Trim(p) == name
  {
    hide SameName, Trim, NamesIn, Split, IsCut;
    NamesAre(Split(text), own, name);
    forall p ensures p in Split(text) <==> IsCut(text, p) {
      SplitPieces(text, p);
    }
  }

  // ----- the parser -----

  method FindBar(text: string, from: nat) returns (i: nat)
    requires from <= |text|
    ensures i == from + BarAt(text[from..])
  {
    i := from;
    while i < |text| && text[i] != '|'
      invariant from <= i <= |text| && from + BarAt(text[from..]) == i + BarAt(text[i..])
    {
      i := i + 1;
    }
  }

  /** Cut the text at the bars; a text that ends with a bar has no last piece. */
  method SplitText(text: string) returns (pieces: seq<string>)
    ensures pieces == Split(text) || pieces + [""] == Split(text)
  {
    hide Split, BarAt;
    pieces := [];
    var prev := 0;
    var next := FindBar(text, 0);
    assert text[0..] == text;
    while next < |text|
      invariant prev <= next <= |text| && next == prev + BarAt(text[prev..])
      invariant pieces + Split(text[prev..]) == Split(text)
      decreases |text| - prev
    {
      SplitNext(text, prev, pieces);
      pieces := pieces + [text[prev..next]];
      prev := next + 1;
      next := FindBar(text, prev);
    }
    SplitLast(text[prev..]);
    if |text| > prev {
      pieces := pieces + [text[prev..]];
    } else {
      assert text[prev..] == "";
    }
  }

  lemma SplitLast(text: string)
    requires BarAt(text) == |text|
    ensures Split(text) == [text]
  {
  }

  lemma SplitNext(text: string, prev: nat, pieces: seq<string>)
    requires prev <= |text| && BarAt(text[prev..]) < |text[prev..]|
    ensures var next := prev + BarAt(text[prev..]);
            pieces + Split(text[prev..]) == pieces + [text[prev..next]] + Split(text[next + 1..])
  {
    hide BarAt;
    var k := BarAt(text[prev..]);
    assert text[prev..][..k] == text[prev..prev + k] && text[prev..][k + 1..] == text[prev + k + 1..];
    assert pieces + ([text[prev..prev + k]] + Split(text[prev + k + 1..]))
        == pieces + [text[prev..prev + k]] + Split(text[prev + k + 1..]);
  }

  lemma {:induction false} DropSpacesAt(s: string, i: nat)
    requires i <= |s| && AllSpaces(s[..i]) && (i < |s| ==> s[i] != ' ')
    ensures DropSpaces(s) == s[i..]
  {
    if i > 0 {
      assert s[..i][0] == s[0];
      assert s[1..][..i - 1] == s[..i][1..];
      DropSpacesAt(s[1..], i - 1);
    }
  }

  lemma {:induction false} DropLastSpacesAt(s: string, i: nat)
    requires i <= |s| && AllSpaces(s[i..]) && (i > 0 ==> s[i - 1] != ' ')
    ensures DropLastSpaces(s) == s[..i]
    decreases |s|
  {
    if i < |s| {
      var init := s[..|s| - 1];
      assert s[i..][|s| - 1 - i] == s[|s| - 1];
      assert forall k :: 0 <= k < |init| - i ==> init[i..][k] == s[i..][k];
      DropLastSpacesAt(init, i);
      assert init[..i] == s[..i];
    }
  }

  method TrimPiece(s: string) returns (t: string)
    ensures t == Trim(s)
  {
    var head := 0;
    while head < |s| && s[head] == ' '
      invariant head <= |s| && AllSpaces(s[..head])
    {
      head := head + 1;
    }
    DropSpacesAt(s, head);
    var tail := |s|;
    while tail > head && s[tail - 1] == ' '
      invariant head <= tail <= |s| && AllSpaces(s[tail..])
    {
      tail := tail - 1;
    }
    var d := s[head..];
    assert d[tail - head..] == s[tail..] && d[..tail - head] == s[head..tail];
    DropLastSpacesAt(d, tail - head);
    t := s[head..tail];
  }

  /** ParseEventFilter: the names it adds to the filter of the plugin called `own`. */
  method ParseEventFilter(own: string, text: string) returns (names: seq<string>)
    ensures names == FilterNames(own, text)
  {
    hide Trim, SameName, Split;
    var pieces := SplitText(text);
    names := [];
    var i := 0;
    while i < |pieces|
      invariant i <= |pieces| && names == NamesIn(pieces[..i], own)
    {
      assert pieces[..i + 1][..i] == pieces[..i];
      if pieces[i] != "" {
        var atom := TrimPiece(pieces[i]);
        if !SameName(atom, own) {
          names := names + [atom];
        }
      }
      i := i + 1;
    }
    assert pieces[..|pieces|] == pieces;
    assert (pieces + [""])[..|pieces|] == pieces;
  }

  // ----- the fan-out -----

  /** A plugin with a filter: its client, its name and the names its filter collected. */
  datatype Entry = Entry(plugin: ClientId, name: string, names: seq<string>)

  predicate Wants(entry: Entry, source: string) {
    exists j :: 0 <= j < |entry.names| && SameName(source, entry.names[j])
  }

  /** One clone for a plugin that wants the event and is loaded under its name. */
  function DeliverTo(b: Bus, entry: Entry, loaded: map<string, ClientId>, source: string,
                     e: Event, self: ClientId): Bus
  {
    if Wants(entry, source) && entry.name in loaded
    then DispatchCreated(b, e, Some(self), To(loaded[entry.name]))
    else b
  }

  function DeliverAll(b: Bus, entries: seq<Entry>, loaded: map<string, ClientId>, source: string,
                      e: Event, self: ClientId): Bus
  {
    if entries == [] then b else
    var n := |entries| - 1;
    DeliverTo(DeliverAll(b, entries[..n], loaded, source, e, self), entries[n], loaded, source, e, self)
  }

  /** A name under which an entry's plugin is loaded is the name of that plugin, and no two
      entries are for the same plugin. An entry's plugin need not be loaded. */
  ghost predicate LoadedPlugins(entries: seq<Entry>, loaded: map<string, ClientId>) {
    && (forall i :: 0 <= i < |entries| ==> entries[i].name in loaded ==> loaded[entries[i].name] == entries[i].plugin)
    && (forall i, j :: 0 <= i < j < |entries| ==> entries[i].plugin != entries[j].plugin)
  }

  /** Client `c` got one clone of `e`, or nothing. */
  ghost predicate GotClone(b: Bus, r: Bus, c: ClientId, e: Event, self: ClientId, one: bool) {
    && Registered(b, c)
    && if one then exists uid :: Holds(r, c, Q.PushTo(Lookup(b, c), e.(uid := uid, target := To(c)), Some(self)))
       else Holds(r, c, Lookup(b, c))
  }

  lemma DispatchToOne(b: Bus, e: Event, self: ClientId, d: ClientId, c: ClientId)
    requires Registered(b, c)
    ensures Holds(DispatchCreated(b, e, Some(self), To(d)), c,
                  if d == c then Q.PushTo(Lookup(b, c), e.(uid := b.next, target := To(c)), Some(self))
                  else Lookup(b, c))
  {
    hide Dispatch;
    var op := DispatchNew(e, Some(self), To(d));
    StepProjects(b, op, c);
    if d == c { Q.RunOne(Lookup(b, c), Project(b, op, c)[0]); }
  }

  lemma {:induction false} NotAddressed(b: Bus, entries: seq<Entry>, loaded: map<string, ClientId>, source: string,
                                        e: Event, self: ClientId, c: ClientId)
    requires Registered(b, c) && LoadedPlugins(entries, loaded)
    requires forall i :: 0 <= i < |entries| ==> entries[i].plugin != c
    ensures Holds(DeliverAll(b, entries, loaded, source, e, self), c, Lookup(b, c))
    decreases |entries|
  {
    hide Wants, DispatchCreated;
    if entries != [] {
      var n := |entries| - 1;
      NotAddressed(b, entries[..n], loaded, source, e, self, c);
      DispatchToOne(DeliverAll(b, entries[..n], loaded, source, e, self), e, self, entries[n].plugin, c);
    }
  }

  /** A plugin event reaches the plugin of entry `k` as exactly one clone if it is loaded and
      its filter names the source, however often, and not at all otherwise. */
  lemma {:induction false} OneCloneEach(b: Bus, entries: seq<Entry>, loaded: map<string, ClientId>, source: string,
                                        e: Event, self: ClientId, k: nat)
    requires k < |entries| && Registered(b, entries[k].plugin) && LoadedPlugins(entries, loaded)
    ensures GotClone(b, DeliverAll(b, entries, loaded, source, e, self), entries[k].plugin, e, self,
                     Wants(entries[k], source) && entries[k].name in loaded)
    decreases |entries|
  {
    hide Wants, DispatchCreated, Q.PushTo;
    var n, c := |entries| - 1, entries[k].plugin;
    var before := DeliverAll(b, entries[..n], loaded, source, e, self);
    if k < n {
      OneCloneEach(b, entries[..n], loaded, source, e, self, k);
    } else {
      NotAddressed(b, entries[..n], loaded, source, e, self, c);
    }
    DispatchToOne(before, e, self, entries[n].plugin, c);
  }

  /** The names collected from all the filter texts of a plugin. */
  function AllNames(own: string, texts: seq<string>): seq<string> {
    if texts == [] then [] else AllNames(own, texts[..|texts| - 1]) + FilterNames(own, texts[|texts| - 1])
  }

  /** Some text of the filter has a non-empty piece that, trimmed, is the source's name. */
  ghost predicate NamedIn(texts: seq<string>, source: string) {
    exists k, p :: 0 <= k < |texts| && IsCut(texts[k], p) && p != "" && SameName(Trim(p), source)
  }

  lemma {:induction false} AllNamesAre(own: string, texts: seq<string>, name: string)
    ensures name in AllNames(own, texts) <==> exists k :: 0 <= k < |texts| && name in FilterNames(own, texts[k])
    decreases |texts|
  {
    hide FilterNames;
    if texts != [] {
      var n := |texts| - 1;
      AllNamesAre(own, texts[..n], name);
    }
  }

  /** A plugin wants an event exactly if its filter texts name the source and the source's name
      is not its own; in particular no plugin wants its own events. */
  lemma WantsMeaning(plugin: ClientId, own: string, texts: seq<string>, source: string)
    ensures Wants(Entry(plugin, own, AllNames(own, texts)), source) <==>
              !SameName(own, source) && NamedIn(texts, source)
    ensures !Wants(Entry(plugin, own, AllNames(own, texts)), own)
  {
    WantsNamed(plugin, own, texts, source);
    WantsNamed(plugin, own, texts, own);
  }

  lemma WantsNamed(plugin: ClientId, own: string, texts: seq<string>, source: string)
    ensures Wants(Entry(plugin, own, AllNames(own, texts)), source) <==>
              !SameName(own, source) && NamedIn(texts, source)
  {
    hide AllNames, FilterNames, IsCut, Trim, Folded;
    var names := AllNames(own, texts);
    if j :| 0 <= j < |names| && SameName(source, names[j]) {
      AllNamesAre(own, texts, names[j]);
      var k :| 0 <= k < |texts| && names[j] in FilterNames(own, texts[k]);
      FilterMeaning(own, texts[k], names[j]);
    }
    if k, p :| 0 <= k < |texts| && IsCut(texts[k], p) && p != ""
               && SameName(Trim(p), source) && !SameName(own, source) {
      FilterMeaning(own, texts[k], Trim(p));
      AllNamesAre(own, texts, Trim(p));
      var j :| 0 <= j < |names| && names[j] == Trim(p);
      assert SameName(source, names[j]);
    }
  }

  /** The whole route, from filter texts to queues: a plugin event is pushed to a plugin exactly
      once if it is loaded, some trimmed piece of its filter texts is the source's name and it
      does not bear that name itself, and otherwise not at all. */
  lemma RoutedExactlyIfNamed(b: Bus, entries: seq<Entry>, texts: seq<seq<string>>, loaded: map<string, ClientId>,
                             source: string, e: Event, self: ClientId, k: nat)
    requires LoadedPlugins(entries, loaded) && |texts| == |entries|
    requires forall i :: 0 <= i < |entries| ==> entries[i].names == AllNames(entries[i].name, texts[i])
    requires k < |entries| && Registered(b, entries[k].plugin)
    ensures GotClone(b, DeliverAll(b, entries, loaded, source, e, self), entries[k].plugin, e, self,
                     entries[k].name in loaded && !SameName(entries[k].name, source) && NamedIn(texts[k], source))
  {
    hide GotClone, Wants, DeliverAll, NamedIn, SameName;
    OneCloneEach(b, entries, loaded, source, e, self, k);
    WantsMeaning(entries[k].plugin, entries[k].name, texts[k], source);
    assert entries[k] == Entry(entries[k].plugin, entries[k].name, AllNames(entries[k].name, texts[k]));
  }
}
