/** internal/adapter/adapter.go:424-479: cutting a byte stream that arrives in arbitrary pieces into
    frames, with a bound on each frame and a callback that may refuse one. */
module Lines {
  import opened Outcomes

  newtype Byte = b: int | 0 <= b < 256

  type Bytes = seq<Byte>

  const NEWLINE: Byte := 10

  datatype Fault = TooLarge | Rejected

  /** The limit, and the callback: accepts is given everything it was ever handed, the new frame last. */
  datatype Reader = Reader(limit: int, accepts: seq<Bytes> -> bool)

  /** delivered are the frames handed to the callback, a refused one included; alarms counts OnError. */
  datatype State = State(buf: Bytes, fault: Option<Fault>, delivered: seq<Bytes>, alarms: nat)

  const EMPTY := State([], None, [], 0)

  // ---------- splitting ----------

  function Find(b: Bytes): (n: nat)
    ensures n <= |b| && NEWLINE !in b[..n] && (n < |b| ==> b[n] == NEWLINE)
  {
    if b == [] || b[0] == NEWLINE then 0
    else
      assert b[..1 + Find(b[1..])] == [b[0]] + b[1..][..Find(b[1..])];
      1 + Find(b[1..])
  }

  /** The text before each newline. */
  function Frames(b: Bytes): seq<Bytes> {
    if Find(b) == |b| then [] else [b[..Find(b)]] + Frames(b[Find(b) + 1..])
  }

  /** The text after the last newline. */
  function Tail(b: Bytes): Bytes {
    if Find(b) == |b| then b else Tail(b[Find(b) + 1..])
  }

  function Joined(frames: seq<Bytes>): Bytes {
    if frames == [] then [] else frames[0] + [NEWLINE] + Joined(frames[1..])
  }

  /** Frames and tail are the stream, cut at its newlines and nowhere else. */
  lemma SplitJoins(b: Bytes)
    ensures Joined(Frames(b)) + Tail(b) == b
    ensures NEWLINE !in Tail(b) && forall i :: 0 <= i < |Frames(b)| ==> NEWLINE !in Frames(b)[i]
  {
    FramesJoin(b);
    NoNewlineInside(b);
  }

  lemma {:induction false} FramesJoin(b: Bytes)
    ensures Joined(Frames(b)) + Tail(b) == b
    decreases |b|
  {
    var n := Find(b);
    if n < |b| {
      var rest := b[n + 1..];
      FramesJoin(rest);
      assert Frames(b)[0] == b[..n] && Frames(b)[1..] == Frames(rest);
      Associates(b[..n] + [NEWLINE], Joined(Frames(rest)), Tail(rest));
      assert b == b[..n] + [NEWLINE] + rest;
    }
  }

  lemma {:induction false} NoNewlineInside(b: Bytes)
    ensures NEWLINE !in Tail(b) && forall i :: 0 <= i < |Frames(b)| ==> NEWLINE !in Frames(b)[i]
    decreases |b|
  {
    var n := Find(b);
    if n < |b| {
      NoNewlineInside(b[n + 1..]);
    } else {
      assert b[..n] == b;
    }
  }

  lemma Associates(a: Bytes, b: Bytes, c: Bytes)
    ensures (a + b) + c == a + (b + c)
  {
  }

  /** Everything the callback may get to see: the frames, and a tail that is not empty. */
  function All(b: Bytes): seq<Bytes> {
    Frames(b) + (if Tail(b) == [] then [] else [Tail(b)])
  }

  // ---------- the loop ----------

  function Failed(s: State, fault: Fault): State {
    s.(fault := Some(fault), alarms := s.alarms + 1)
  }

  /** One frame complete in the buffer. */
  function Handed(s: State, r: Reader): State {
    var t := s.(delivered := s.delivered + [s.buf]);
    if r.accepts(t.delivered) then t.(buf := []) else Failed(t, Rejected)
  }

  function Fed(s: State, b: Bytes, r: Reader): State
    decreases |b|
  {
    if s.fault.Some? || b == [] then s
    else
      var n := Find(b);
      if |s.buf| + n > r.limit then Failed(s, TooLarge)
      else
        var t := s.(buf := s.buf + b[..n]);
        if n == |b| then t else Fed(Handed(t, r), b[n + 1..], r)
  }

  function Flushed(s: State, r: Reader): State {
    if s.fault.Some? || s.buf == [] then s
    else
      var t := s.(buf := [], delivered := s.delivered + [s.buf]);
      if r.accepts(t.delivered) then t else t.(fault := Some(Rejected))
  }

  class LineReader {
    var buf: Bytes
    var fault: Option<Fault>
    var delivered: seq<Bytes>
    var alarms: nat
    const reader: Reader

    ghost function Current(): State
      reads this
    {
      State(buf, fault, delivered, alarms)
    }

    constructor (reader: Reader)
      ensures Current() == EMPTY && this.reader == reader
    {
      buf, fault, delivered, alarms := [], None, [], 0;
      this.reader := reader;
    }

    /** adapter.go:473-479 */
    method Fail(f: Fault)
      modifies this
      ensures Current() == Failed(old(Current()), f)
    {
      fault := Some(f);
      alarms := alarms + 1;
    }

    /** adapter.go:433-460. The count is the length of the piece, or 0 after a fault. */
    method Write(piece: Bytes) returns (count: nat, ok: bool)
      modifies this
      ensures Current() == Fed(old(Current()), piece, reader)
      ensures ok == Current().fault.None? && count == if ok then |piece| else 0
    {
      if fault.Some? {
        return 0, false;
      }
      var b := piece;
      while |b| > 0
        invariant fault.None?
        invariant Fed(Current(), b, reader) == Fed(old(Current()), piece, reader)
        decreases |b|
      {
        var n := Find(b);
        if |buf| + n > reader.limit {
          Fail(TooLarge);
          return 0, false;
        }
        buf := buf + b[..n];
        if n == |b| {
          return |piece|, true;
        }
        delivered := delivered + [buf];
        if !reader.accepts(delivered) {
          Fail(Rejected);
          return 0, false;
        }
        buf := [];
        b := b[n + 1..];
      }
      return |piece|, true;
    }

    /** adapter.go:461-472 */
    method Flush() returns (ok: bool)
      modifies this
      ensures Current() == Flushed(old(Current()), reader) && ok == Current().fault.None?
    {
      if fault.Some? {
        return false;
      }
      if |buf| > 0 {
        delivered := delivered + [buf];
        if !reader.accepts(delivered) {
          fault := Some(Rejected);
        }
        buf := [];
      }
      return fault.None?;
    }
  }

  // ---------- pieces do not matter ----------

  /** Equal for every later call: once there is a fault, what the buffer holds is never read again. */
  ghost predicate Alike(s: State, t: State) {
    && s.fault == t.fault && s.delivered == t.delivered && s.alarms == t.alarms
    && (s.fault.None? ==> s.buf == t.buf)
  }

  lemma {:induction false} FindAppended(a: Bytes, b: Bytes)
    ensures Find(a + b) == if Find(a) < |a| then Find(a) else |a| + Find(b)
  {
    if a == [] {
      assert a + b == b;
    } else if a[0] != NEWLINE {
      assert (a + b)[1..] == a[1..] + b;
      FindAppended(a[1..], b);
    }
  }

  /** Writing two pieces is writing them as one. */
  lemma {:induction false} TwoPieces(s: State, a: Bytes, b: Bytes, r: Reader)
    ensures Alike(Fed(Fed(s, a, r), b, r), Fed(s, a + b, r))
    decreases |a|
  {
    if a == [] {
      assert a + b == b;
    } else if b == [] {
      assert a + b == a;
    } else if s.fault.None? {
      FindAppended(a, b);
      if Find(a) < |a| {
        FirstHasNewline(s, a, b, r);
      } else {
        FirstHasNone(s, a, b, r);
      }
    }
  }

  lemma {:induction false} FirstHasNewline(s: State, a: Bytes, b: Bytes, r: Reader)
    requires s.fault.None? && Find(a) < |a| && Find(a + b) == Find(a)
    ensures Alike(Fed(Fed(s, a, r), b, r), Fed(s, a + b, r))
    decreases |a|, 0
  {
    var n := Find(a);
    assert (a + b)[..n] == a[..n] && (a + b)[n + 1..] == a[n + 1..] + b;
    if |s.buf| + n <= r.limit {
      TwoPieces(Handed(s.(buf := s.buf + a[..n]), r), a[n + 1..], b, r);
    }
  }

  lemma FirstHasNone(s: State, a: Bytes, b: Bytes, r: Reader)
    requires s.fault.None? && a != [] && b != [] && Find(a) == |a| && Find(a + b) == |a| + Find(b)
    ensures Alike(Fed(Fed(s, a, r), b, r), Fed(s, a + b, r))
  {
    assert a[..|a|] == a;
    if |s.buf| + |a| <= r.limit {
      assert Fed(s, a, r) == s.(buf := s.buf + a);
      BufferFirst(s, a, b, r);
    }
  }

  lemma BufferFirst(s: State, a: Bytes, b: Bytes, r: Reader)
    requires s.fault.None? && a != [] && b != [] && Find(a + b) == |a| + Find(b)
    ensures Alike(Fed(s.(buf := s.buf + a), b, r), Fed(s, a + b, r))
  {
    var n := Find(b);
    assert s.buf + (a + b)[..|a| + n] == (s.buf + a) + b[..n];
    assert n < |b| ==> (a + b)[|a| + n + 1..] == b[n + 1..];
  }

  function Whole(pieces: seq<Bytes>): Bytes {
    if pieces == [] then [] else Whole(pieces[..|pieces| - 1]) + pieces[|pieces| - 1]
  }

  function FedAll(s: State, pieces: seq<Bytes>, r: Reader): State {
    if pieces == [] then s else Fed(FedAll(s, pieces[..|pieces| - 1], r), pieces[|pieces| - 1], r)
  }

  lemma {:induction false} AlikeFed(s: State, t: State, b: Bytes, r: Reader)
    requires Alike(s, t)
    ensures Alike(Fed(s, b, r), Fed(t, b, r))
    ensures Alike(Flushed(s, r), Flushed(t, r))
  {
    assert s.fault.None? ==> s == t;
  }

  lemma {:induction false} PiecesAsOne(s: State, pieces: seq<Bytes>, r: Reader)
    ensures Alike(FedAll(s, pieces, r), Fed(s, Whole(pieces), r))
  {
    if pieces != [] {
      var k := |pieces| - 1;
      PiecesAsOne(s, pieces[..k], r);
      AlikeFed(FedAll(s, pieces[..k], r), Fed(s, Whole(pieces[..k]), r), pieces[k], r);
      TwoPieces(s, Whole(pieces[..k]), pieces[k], r);
    }
  }

  /** However the same bytes are cut into writes, the frames delivered, the fault and the alarms are
      the same, after the writes and after the flush. */
  lemma CuttingIrrelevant(these: seq<Bytes>, those: seq<Bytes>, r: Reader)
    requires Whole(these) == Whole(those)
    ensures Alike(FedAll(EMPTY, these, r), FedAll(EMPTY, those, r))
    ensures Alike(Flushed(FedAll(EMPTY, these, r), r), Flushed(FedAll(EMPTY, those, r), r))
  {
    PiecesAsOne(EMPTY, these, r);
    PiecesAsOne(EMPTY, those, r);
    AlikeFed(FedAll(EMPTY, these, r), FedAll(EMPTY, those, r), [], r);
  }

  // ---------- and the frames are the text between newlines ----------

  predicate Passes(frames: seq<Bytes>, i: nat, r: Reader)
    requires i < |frames|
  {
    |frames[i]| <= r.limit && r.accepts(frames[..i + 1])
  }

  /** Some frame is the first that does not pass. */
  ghost predicate Breaks(frames: seq<Bytes>, k: nat, r: Reader) {
    && k < |frames| && !Passes(frames, k, r)
    && forall i :: 0 <= i < k ==> Passes(frames, i, r)
  }

  ghost predicate AllPass(frames: seq<Bytes>, r: Reader) {
    forall i :: 0 <= i < |frames| ==> Passes(frames, i, r)
  }

  /** Where the reader stands when frame k of the given ones is next. */
  ghost predicate Standing(s: State, frames: seq<Bytes>, k: nat, r: Reader) {
    && k <= |frames| && s == State([], None, frames[..k], 0)
    && forall i :: 0 <= i < k ==> Passes(frames, i, r)
  }

  /** What the flushed reader ends with: everything delivered, or all up to the first frame that does
      not pass, that one too if it was the callback that refused it. */
  ghost predicate Ends(s: State, frames: seq<Bytes>, complete: nat, r: Reader) {
    || (AllPass(frames, r) && s.fault.None? && s.delivered == frames && s.alarms == 0)
    || (exists k :: Breaks(frames, k, r) && EndsAt(s, frames, k, complete, r))
  }

  ghost predicate EndsAt(s: State, frames: seq<Bytes>, k: nat, complete: nat, r: Reader)
    requires k < |frames|
  {
    if |frames[k]| > r.limit then s.fault == Some(TooLarge) && s.delivered == frames[..k] && s.alarms == 1
    else s.fault == Some(Rejected) && s.delivered == frames[..k + 1] && s.alarms == if k < complete then 1 else 0
  }

  /** From frame k on, with the rest of the stream to go. */
  lemma {:induction false} Continues(s: State, rest: Bytes, frames: seq<Bytes>, k: nat, r: Reader)
    requires Standing(s, frames, k, r) && frames[k..] == All(rest)
    ensures Ends(Flushed(Fed(s, rest, r), r), frames, k + |Frames(rest)|, r)
    decreases |rest|
  {
    var n := Find(rest);
    if n == |rest| {
      LastFrame(s, rest, frames, k, r);
    } else {
      assert All(rest) == [rest[..n]] + All(rest[n + 1..]);
      assert frames[k] == rest[..n] && frames[k + 1..] == All(rest[n + 1..]);
      assert s.buf + rest[..n] == frames[k];
      assert frames[..k] + [frames[k]] == frames[..k + 1];
      if Passes(frames, k, r) {
        Continues(Handed(s.(buf := frames[k]), r), rest[n + 1..], frames, k + 1, r);
      } else {
        assert Breaks(frames, k, r) && EndsAt(Flushed(Fed(s, rest, r), r), frames, k, k + |Frames(rest)|, r);
      }
    }
  }

  lemma LastFrame(s: State, rest: Bytes, frames: seq<Bytes>, k: nat, r: Reader)
    requires Standing(s, frames, k, r) && frames[k..] == All(rest) && Find(rest) == |rest|
    ensures Ends(Flushed(Fed(s, rest, r), r), frames, k, r)
  {
    assert rest[..|rest|] == rest && s.buf + rest == rest;
    if rest == [] {
      assert All(rest) == [] && |frames| == k && frames[..k] == frames;
    } else {
      assert All(rest) == [rest] && frames[k] == rest && |frames| == k + 1;
      assert frames[..k] + [frames[k]] == frames[..k + 1] == frames;
      if !Passes(frames, k, r) {
        assert Breaks(frames, k, r) && EndsAt(Flushed(Fed(s, rest, r), r), frames, k, k, r);
      }
    }
  }

  /** Every way of writing a stream and flushing it delivers the text between its newlines, up to and
      as decided by the first frame that is too long or refused. */
  lemma DeliversFrames(pieces: seq<Bytes>, r: Reader)
    ensures Ends(Flushed(FedAll(EMPTY, pieces, r), r), All(Whole(pieces)), |Frames(Whole(pieces))|, r)
  {
    var b := Whole(pieces);
    PiecesAsOne(EMPTY, pieces, r);
    AlikeFed(FedAll(EMPTY, pieces, r), Fed(EMPTY, b, r), [], r);
    assert All(b)[0..] == All(b) && All(b)[..0] == [];
    Continues(EMPTY, b, All(b), 0, r);
    EndsAlike(Flushed(FedAll(EMPTY, pieces, r), r), Flushed(Fed(EMPTY, b, r), r), All(b), |Frames(b)|, r);
  }

  lemma EndsAlike(s: State, t: State, frames: seq<Bytes>, complete: nat, r: Reader)
    requires Alike(s, t) && Ends(t, frames, complete, r)
    ensures Ends(s, frames, complete, r)
  {
    if !(AllPass(frames, r) && t.fault.None? && t.delivered == frames && t.alarms == 0) {
      var k :| Breaks(frames, k, r) && EndsAt(t, frames, k, complete, r);
      assert EndsAt(s, frames, k, complete, r);
    }
  }
}
