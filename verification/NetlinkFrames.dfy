/** The walk over the messages of a netlink buffer: 16-byte headers, 4-byte alignment. */
module NetlinkFrames {
  import opened Bytes

  const HEADER: nat := 16

  /** NLMSG_ALIGN on a 32-bit length. */
  function Align(n: nat): nat {
    (n + 3) % TWO_32 / 4 * 4
  }

  /** A received buffer: far below the length at which NLMSG_ALIGN would wrap around. */
  predicate Receivable(bs: seq<byte>) {
    |bs| < TWO_32 - 3
  }

  /** The length the header at the start of `bs` announces. */
  function Announced(bs: seq<byte>): nat
    requires |bs| >= HEADER
  {
    Number(bs[..4])
  }

  /** NLMSG_OK: a whole header, and a length between the header's and what is left. */
  predicate Ok(bs: seq<byte>) {
    |bs| >= HEADER && HEADER <= Announced(bs) <= |bs|
  }

  lemma AlignBounds(n: nat)
    requires n < TWO_32 - 3
    ensures n <= Align(n) < n + 4
  {
  }

  /** What NLMSG_NEXT leaves: nothing if the alignment steps over the end. */
  function Rest(bs: seq<byte>): (r: seq<byte>)
    requires Ok(bs) && Receivable(bs)
    ensures |r| + HEADER <= |bs|
  {
    AlignBounds(Announced(bs));
    if Align(Announced(bs)) <= |bs| then bs[Align(Announced(bs))..] else []
  }

  /** The messages the walk visits. */
  function Visit(bs: seq<byte>): seq<seq<byte>>
    requires Receivable(bs)
    decreases |bs|
  {
    if Ok(bs) then [bs[..Announced(bs)]] + Visit(Rest(bs)) else []
  }

  // ----- any bytes -----

  /** Where in the buffer a visited message lies. */
  datatype Window = Window(at: nat, length: nat)

  function Windows(bs: seq<byte>, at: nat): seq<Window>
    requires Receivable(bs)
    decreases |bs|
  {
    if Ok(bs) then [Window(at, Announced(bs))] + Windows(Rest(bs), at + Align(Announced(bs))) else []
  }

  /** On arbitrary bytes the walk visits at most length / 16 messages; each lies inside the
      buffer, starts at a multiple of four and holds at least a header; and each ends before
      the next begins. */
  lemma {:induction false} WindowsAreSound(bs: seq<byte>, at: nat)
    requires Receivable(bs) && at % 4 == 0
    ensures var ws := Windows(bs, at);
            && HEADER * |ws| <= |bs|
            && (forall i :: 0 <= i < |ws| ==>
                  at <= ws[i].at && ws[i].at % 4 == 0 && HEADER <= ws[i].length
                  && ws[i].at + ws[i].length <= at + |bs|)
            && (forall i, j :: 0 <= i < j < |ws| ==> ws[i].at + ws[i].length <= ws[j].at)
    decreases |bs|
  {
    if Ok(bs) {
      var n := Announced(bs);
      AlignBounds(n);
      var rest, next := Rest(bs), at + Align(n);
      WindowsAreSound(rest, next);
      var ws, tail := Windows(bs, at), Windows(rest, next);
      assert forall i :: 0 < i < |ws| ==> ws[i] == tail[i - 1];
      if rest == [] { assert tail == []; }
    }
  }

  ghost predicate Shows(buffer: seq<byte>, w: Window, m: seq<byte>) {
    w.at + w.length <= |buffer| && m == buffer[w.at..w.at + w.length]
  }

  /** `bs` is what is left of the buffer at position `at`. */
  ghost predicate LeftAt(buffer: seq<byte>, bs: seq<byte>, at: nat) {
    if at <= |buffer| then bs == buffer[at..] else bs == []
  }

  lemma RestLeft(buffer: seq<byte>, bs: seq<byte>, at: nat)
    requires Receivable(buffer) && LeftAt(buffer, bs, at) && Receivable(bs) && Ok(bs)
    ensures LeftAt(buffer, Rest(bs), at + Align(Announced(bs)))
    ensures Shows(buffer, Window(at, Announced(bs)), bs[..Announced(bs)])
  {
  }

  /** The windows cut exactly the visited messages out of the buffer. */
  lemma {:induction false} WindowsShowMessages(buffer: seq<byte>, bs: seq<byte>, at: nat)
    requires Receivable(buffer) && Receivable(bs) && LeftAt(buffer, bs, at)
    ensures |Windows(bs, at)| == |Visit(bs)|
    ensures forall i :: 0 <= i < |Visit(bs)| ==> Shows(buffer, Windows(bs, at)[i], Visit(bs)[i])
    decreases |bs|
  {
    hide Align, Announced, Shows, LeftAt, Rest;
    if Ok(bs) {
      RestLeft(buffer, bs, at);
      WindowsShowMessages(buffer, Rest(bs), at + Align(Announced(bs)));
    }
  }

  // ----- well-formed buffers -----

  predicate IsFrame(f: seq<byte>) {
    |f| >= HEADER && Announced(f) == |f|
  }

  /** A frame and the padding to the next multiple of four; the padding bytes are arbitrary. */
  datatype Padded = Padded(frame: seq<byte>, padding: seq<byte>)

  predicate WellPadded(p: Padded) {
    IsFrame(p.frame) && |p.frame| < TWO_32 - 3 && |p.frame| + |p.padding| == Align(|p.frame|)
  }

  function Concat(ps: seq<Padded>): seq<byte> {
    if ps == [] then [] else ps[0].frame + ps[0].padding + Concat(ps[1..])
  }

  function FramesOf(ps: seq<Padded>): (fs: seq<seq<byte>>)
    ensures |fs| == |ps|
  {
    if ps == [] then [] else [ps[0].frame] + FramesOf(ps[1..])
  }

  lemma VisitFrame(f: seq<byte>, tail: seq<byte>)
    requires IsFrame(f) && Receivable(f + tail)
    ensures Ok(f + tail) && Announced(f + tail) == |f| && (f + tail)[..|f|] == f
  {
    hide Number;
    assert (f + tail)[..4] == f[..4];
  }

  lemma LastFrame(p: Padded, cut: nat)
    requires WellPadded(p) && cut <= |p.padding| && Receivable(p.frame + p.padding)
    ensures Visit((p.frame + p.padding)[..|p.frame + p.padding| - cut]) == [p.frame]
  {
    hide Announced;
    AlignBounds(|p.frame|);
    var f, pad := p.frame, p.padding[..|p.padding| - cut];
    assert (f + p.padding)[..|f + p.padding| - cut] == f + pad;
    VisitFrame(f, pad);
    assert |Rest(f + pad)| < HEADER;
    assert Visit(Rest(f + pad)) == [];
  }

  lemma InnerFrame(p: Padded, tail: seq<byte>)
    requires WellPadded(p) && Receivable(p.frame + (p.padding + tail))
    ensures Visit(p.frame + (p.padding + tail)) == [p.frame] + Visit(tail)
  {
    hide Announced;
    AlignBounds(|p.frame|);
    var bs := p.frame + (p.padding + tail);
    VisitFrame(p.frame, p.padding + tail);
    assert Rest(bs) == tail;
  }

  /** The walk visits exactly the frames of any concatenation of padded frames, in order, also
      when some or all of the last padding is missing. */
  lemma {:induction false} VisitsEveryFrame(ps: seq<Padded>, cut: nat)
    requires forall i :: 0 <= i < |ps| ==> WellPadded(ps[i])
    requires ps == [] ==> cut == 0
    requires ps != [] ==> cut <= |ps[|ps| - 1].padding|
    requires cut <= |Concat(ps)| && Receivable(Concat(ps))
    ensures Visit(Concat(ps)[..|Concat(ps)| - cut]) == FramesOf(ps)
    decreases |ps|
  {
    hide Visit, WellPadded;
    if ps == [] {
      VisitNothing();
    } else if |ps| == 1 {
      assert Concat(ps) == ps[0].frame + ps[0].padding;
      LastFrame(ps[0], cut);
      assert FramesOf(ps) == [ps[0].frame];
    } else {
      CutFits(ps[1..], cut);
      CutConcat(ps, cut);
      InnerFrame(ps[0], Concat(ps[1..])[..|Concat(ps[1..])| - cut]);
      VisitsEveryFrame(ps[1..], cut);
    }
  }

  lemma VisitNothing()
    ensures Visit([]) == []
  {
  }

  lemma CutConcat(ps: seq<Padded>, cut: nat)
    requires ps != [] && cut <= |Concat(ps[1..])|
    ensures var tail := Concat(ps[1..]);
            Concat(ps)[..|Concat(ps)| - cut] == ps[0].frame + (ps[0].padding + tail[..|tail| - cut])
  {
  }

  lemma {:induction false} CutFits(ps: seq<Padded>, cut: nat)
    requires ps != [] && cut <= |ps[|ps| - 1].padding|
    ensures cut <= |Concat(ps)|
    decreases |ps|
  {
    if |ps| > 1 { CutFits(ps[1..], cut); }
  }
}
