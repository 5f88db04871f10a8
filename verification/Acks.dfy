/** `DCCSend::dcc_read`: acknowledgements of four bytes arrive in pieces. */
module Acks {

  type Byte = x: int | 0 <= x < 256

  /** `ntohl`. */
  function Word(a: Byte, b: Byte, c: Byte, d: Byte): nat {
    ((a * 256 + b) * 256 + c) * 256 + d
  }

  /** The `i`-th whole word of the stream. */
  function WordAt(s: seq<Byte>, i: nat): nat
    requires 4 * i + 4 <= |s|
  {
    Word(s[4 * i], s[4 * i + 1], s[4 * i + 2], s[4 * i + 3])
  }

  /** One of the whole words of the stream acknowledges everything. */
  predicate Acked(s: seq<Byte>, total: nat)
    decreases |s|
  {
    |s| >= 4 && (WordAt(s, 0) >= total || Acked(s[4..], total))
  }

  /** What `dcc_read` leaves of a stream: it takes whole words, up to the first that
      acknowledges everything. */
  function After(s: seq<Byte>, total: nat): (r: seq<Byte>)
    ensures |r| <= |s|
    decreases |s|
  {
    if |s| < 4 then s
    else if WordAt(s, 0) >= total then s[4..]
    else After(s[4..], total)
  }

  /** What is left of a stream behind all its whole words. */
  function Tail(s: seq<Byte>): (r: seq<Byte>)
    ensures |r| < 4 && |r| <= |s| && r == s[|s| - |r|..]
    decreases |s|
  {
    if |s| < 4 then s else Tail(s[4..])
  }

  /** How many words it takes. */
  function Words(s: seq<Byte>, total: nat): (r: nat)
    ensures 4 * r <= |s|
    decreases |s|
  {
    if |s| < 4 then 0
    else if WordAt(s, 0) >= total then 1
    else 1 + Words(s[4..], total)
  }

  lemma WordLater(s: seq<Byte>, i: nat)
    requires 4 * i + 8 <= |s|
    ensures WordAt(s[4..], i) == WordAt(s, i + 1)
  {}

  /** The words of `Acked` are the aligned ones. */
  lemma {:induction false} AckedIs(s: seq<Byte>, total: nat)
    ensures Acked(s, total) <==> exists i :: 0 <= i < |s| / 4 && WordAt(s, i) >= total
    decreases |s|
  {
    if |s| >= 4 {
      AckedIs(s[4..], total);
      if i :| 0 <= i < |s[4..]| / 4 && WordAt(s[4..], i) >= total {
        WordLater(s, i);
        assert WordAt(s, i + 1) >= total;
      }
      if i :| 0 < i < |s| / 4 && WordAt(s, i) >= total {
        WordLater(s, i - 1);
        assert WordAt(s[4..], i - 1) >= total;
      }
    }
  }

  lemma {:induction false} AfterIsSuffix(s: seq<Byte>, total: nat)
    ensures After(s, total) == s[4 * Words(s, total)..]
    decreases |s|
  {
    if |s| >= 4 && WordAt(s, 0) < total {
      AfterIsSuffix(s[4..], total);
      var n := Words(s[4..], total);
      assert s[4..][4 * n..] == s[4 * n + 4..];
    }
  }

  /** The words taken are all short of the total but for the last if everything is
      acknowledged, which is then the first word to do so. */
  lemma {:induction false} WordsAreShort(s: seq<Byte>, total: nat)
    ensures var n := Words(s, total);
            && (forall i :: 0 <= i < n - 1 ==> WordAt(s, i) < total)
            && (Acked(s, total) ==> n > 0 && WordAt(s, n - 1) >= total)
    decreases |s|
  {
    if |s| >= 4 {
      if WordAt(s, 0) < total {
        WordsAreShort(s[4..], total);
        ShortFromSecond(s, total, Words(s[4..], total));
      }
    }
  }

  lemma ShortFromSecond(s: seq<Byte>, total: nat, n: nat)
    requires |s| >= 4 && 4 * n <= |s| - 4 && WordAt(s, 0) < total
    requires forall i :: 0 <= i < n - 1 ==> WordAt(s[4..], i) < total
    ensures forall i :: 0 <= i < n ==> WordAt(s, i) < total
    ensures n > 0 ==> WordAt(s, n) == WordAt(s[4..], n - 1)
  {
    forall i | 0 <= i < n
      ensures WordAt(s, i) < total
    {
      if i > 0 {
        WordLater(s, i - 1);
        assert WordAt(s[4..], i - 1) < total;
      }
    }
    if n > 0 {
      WordLater(s, n - 1);
    }
  }

  /** Nothing is acknowledged: every whole word is taken. */
  lemma {:induction false} NotAcked(s: seq<Byte>, total: nat)
    requires !Acked(s, total)
    ensures After(s, total) == Tail(s)
    decreases |s|
  {
    if |s| >= 4 {
      NotAcked(s[4..], total);
    }
  }

  lemma FirstOf(s: seq<Byte>, t: seq<Byte>)
    requires |s| >= 4
    ensures (s + t)[4..] == s[4..] + t && WordAt(s + t, 0) == WordAt(s, 0)
  {}

  /** Bytes that come later do not change what was acknowledged before. */
  lemma {:induction false} AckedStays(s: seq<Byte>, t: seq<Byte>, total: nat)
    requires Acked(s, total)
    ensures Acked(s + t, total) && After(s + t, total) == After(s, total) + t
    decreases |s|
  {
    FirstOf(s, t);
    if WordAt(s, 0) < total {
      AckedStays(s[4..], t, total);
    }
  }

  /** A stream that acknowledges nothing so far goes on as its tail does. */
  lemma {:induction false} TailGoesOn(s: seq<Byte>, t: seq<Byte>, total: nat)
    requires !Acked(s, total)
    ensures Acked(s + t, total) <==> Acked(Tail(s) + t, total)
    ensures After(s + t, total) == After(Tail(s) + t, total)
    decreases |s|
  {
    if |s| >= 4 {
      FirstOf(s, t);
      TailGoesOn(s[4..], t, total);
    }
  }

  /** What one call of `read` gives. */
  datatype Arrival = Again | Closed | Bytes(bytes: seq<Byte>)

  class DccSend {
    const total: nat
    var rxqueue: seq<Byte>
    var finished: bool
    /** Whether it is an acknowledgement that ended the transfer. */
    ghost var done: bool
    /** All the bytes that were read. */
    ghost var stream: seq<Byte>

    /** The queue is the tail of the stream that is no whole word. */
    ghost predicate Valid()
      reads this
    {
      && (done ==> finished && Acked(stream, total))
      && (!finished ==> !Acked(stream, total) && rxqueue == Tail(stream))
    }

    constructor (total: nat)
      ensures Valid() && !finished && !done && stream == [] && this.total == total
    {
      this.total := total;
      rxqueue, finished, done, stream := [], false, false, [];
    }

    /** `dcc_read`. */
    method DccRead(r: Arrival)
      requires Valid() && !finished && (r.Bytes? ==> r.bytes != [])
      modifies this
      ensures Valid() && stream == if r.Bytes? then old(stream) + r.bytes else old(stream)
      ensures done <==> Acked(stream, total)
      ensures finished <==> done || r.Closed?
      ensures !finished ==> |rxqueue| < 4
      ensures done ==> rxqueue == After(stream, total)
    {
      if r.Again? {
        return;
      }
      if r.Closed? {
        finished := true;
        return;
      }
      ghost var all := stream + r.bytes;
      TailGoesOn(stream, r.bytes, total);
      rxqueue := rxqueue + r.bytes;
      finished := Drain();
      if !finished {
        NotAcked(all, total);
      }
      stream, done := all, finished;
      assert finished <==> Acked(all, total);
      assert rxqueue == After(all, total);
    }

    /** Its loop. */
    method Drain() returns (over: bool)
      modifies this`rxqueue
      ensures over <==> Acked(old(rxqueue), total)
      ensures rxqueue == After(old(rxqueue), total)
    {
      ghost var q := rxqueue;
      while |rxqueue| >= 4
        invariant (Acked(q, total) <==> Acked(rxqueue, total)) && After(q, total) == After(rxqueue, total)
        decreases |rxqueue|
      {
        var acked := TakeWord();
        if acked >= total {
          return true;
        }
      }
      return false;
    }

    method TakeWord() returns (acked: nat)
      requires |rxqueue| >= 4
      modifies this`rxqueue
      ensures acked == WordAt(old(rxqueue), 0) && rxqueue == old(rxqueue)[4..]
    {
      acked := Word(rxqueue[0], rxqueue[1], rxqueue[2], rxqueue[3]);
      rxqueue := rxqueue[4..];
    }
  }

  // ---------------------------------------------------------------- whole transfers

  function Concat(rs: seq<seq<Byte>>): seq<Byte> {
    if rs == [] then [] else Concat(rs[..|rs| - 1]) + rs[|rs| - 1]
  }

  /** The state after reads of these bytes: what is queued, and whether it is over. */
  function Reads(rs: seq<seq<Byte>>, total: nat): (seq<Byte>, bool) {
    if rs == [] then ([], false)
    else
      var st := Reads(rs[..|rs| - 1], total);
      if st.1 then st else ReadOne(st.0 + rs[|rs| - 1], total)
  }

  function ReadOne(queue: seq<Byte>, total: nat): (seq<Byte>, bool) {
    (After(queue, total), Acked(queue, total))
  }

  /** However the bytes are split into reads, the transfer is over exactly when the
      bytes read so far acknowledge everything, and else their tail is queued. */
  lemma {:induction false} BoundariesDoNotMatter(rs: seq<seq<Byte>>, total: nat)
    ensures Reads(rs, total).1 <==> Acked(Concat(rs), total)
    ensures !Reads(rs, total).1 ==> Reads(rs, total).0 == Tail(Concat(rs))
  {
    if rs != [] {
      var front, last := rs[..|rs| - 1], rs[|rs| - 1];
      BoundariesDoNotMatter(front, total);
      var s := Concat(front);
      if Reads(front, total).1 {
        AckedStays(s, last, total);
      } else {
        TailGoesOn(s, last, total);
        if !Acked(s + last, total) {
          NotAcked(s + last, total);
        }
      }
    }
  }

  // ---------------------------------------------------------------- what a receiver sends

  type Count = x: int | 0 <= x < 0x1_0000_0000

  /** A number in four bytes, most significant first. */
  function BytesOf(n: Count): seq<Byte> {
    [n / 16777216, n / 65536 % 256, n / 256 % 256, n % 256]
  }

  /** The bytes of a number are read as that number. */
  lemma WordOfBytes(n: Count)
    ensures WordAt(BytesOf(n), 0) == n
  {
    var a, b := n / 256, n / 65536;
    assert n == 256 * a + n % 256;
    assert a / 256 == b && a == 256 * b + a % 256;
    assert b / 256 == n / 16777216 && b == 256 * (n / 16777216) + b % 256;
  }

  /** The bytes of the numbers that a receiver acknowledges. */
  function AckBytes(acks: seq<Count>): (r: seq<Byte>)
    ensures |r| == 4 * |acks|
  {
    if acks == [] then [] else BytesOf(acks[0]) + AckBytes(acks[1..])
  }

  /** The words of what has come of them are the numbers. */
  lemma {:induction false} WordsAreAcks(acks: seq<Count>, n: nat, i: nat)
    requires n <= 4 * |acks| && 4 * i + 4 <= n
    ensures WordAt(AckBytes(acks)[..n], i) == acks[i]
  {
    var s := AckBytes(acks);
    if i == 0 {
      WordOfBytes(acks[0]);
      assert s[..n][0] == s[0] && s[..n][1] == s[1] && s[..n][2] == s[2] && s[..n][3] == s[3];
    } else {
      WordsAreAcks(acks[1..], n - 4, i - 1);
      assert s[4..] == AckBytes(acks[1..]);
      assert s[..n][4..] == AckBytes(acks[1..])[..n - 4];
      WordLater(s[..n], i - 1);
    }
  }

  /** However the bytes of the acknowledgements are cut into reads, the transfer is
      over exactly when one that has come whole is at least the total. */
  lemma AcksEndTransfer(acks: seq<Count>, rs: seq<seq<Byte>>, n: nat, total: nat)
    requires n <= 4 * |acks| && Concat(rs) == AckBytes(acks)[..n]
    ensures Reads(rs, total).1 <==> exists i :: 0 <= i < n / 4 && acks[i] >= total
  {
    var s := Concat(rs);
    BoundariesDoNotMatter(rs, total);
    AckedIs(s, total);
    forall i | 0 <= i < n / 4
      ensures WordAt(s, i) == acks[i]
    {
      WordsAreAcks(acks, n, i);
    }
  }
}
