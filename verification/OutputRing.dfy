/** The ring buffer between the MP3 decoder, which puts samples, and the audio interrupt, which gets them. Positions are
    counted in words; either may rest one past the end of the buffer. */
module OutputRing {

  const DATABUFFER_SIZE := 32768
  const WORDS := 8192

  /** The word that the i-th unread word is in. */
  function Place(get: nat, i: nat): nat {
    (get + i) % WORDS
  }

  /** Words between get and put, from their positions alone. */
  function UsedWords(put: nat, get: nat): nat {
    (WORDS + put - get) % WORDS
  }

  ghost function Unread(buffer: seq<int>, put: nat, get: nat): seq<int>
    requires |buffer| == WORDS
  {
    seq(UsedWords(put, get), i requires 0 <= i => buffer[Place(get, i)])
  }

  /** buf_used, in bytes */
  function BytesUsed(put: nat, get: nat): int {
    (DATABUFFER_SIZE + (4 * put - 4 * get)) % DATABUFFER_SIZE
  }

  /** buf_space, in bytes */
  function BytesFree(put: nat, get: nat): int {
    (DATABUFFER_SIZE - (4 * put - 4 * get) - 1) % DATABUFFER_SIZE
  }

  /** Wherever the positions are: used and free space add up, and both are what they are called. */
  lemma UsedAndFree(put: nat, get: nat)
    requires put <= WORDS && get <= WORDS
    ensures BytesUsed(put, get) + BytesFree(put, get) == DATABUFFER_SIZE - 1
    ensures BytesUsed(put, get) == 4 * UsedWords(put, get)
    ensures BytesFree(put, get) == 4 * (WORDS - 1 - UsedWords(put, get)) + 3
  {
  }

  /** One more word at put. */
  lemma PutOne(buffer: seq<int>, put: nat, get: nat, x: int)
    requires |buffer| == WORDS && put < WORDS && get <= WORDS && UsedWords(put, get) < WORDS - 1
    ensures Unread(buffer[put := x], put + 1, get) == Unread(buffer, put, get) + [x]
  {
    var u := UsedWords(put, get);
    assert UsedWords(put + 1, get) == u + 1 && Place(get, u) == put;
    forall i: nat | i < u
      ensures Place(get, i) != put
    {
    }
  }

  /** One word less at get. */
  lemma GetOne(buffer: seq<int>, put: nat, get: nat)
    requires |buffer| == WORDS && put <= WORDS && get < WORDS && UsedWords(put, get) > 0
    ensures Unread(buffer, put, get) == [buffer[get]] + Unread(buffer, put, get + 1)
  {
    var u := UsedWords(put, get);
    assert UsedWords(put, get + 1) == u - 1 && Place(get, 0) == get;
    var a, b := Unread(buffer, put, get), Unread(buffer, put, get + 1);
    forall i: nat | i < u - 1
      ensures b[i] == a[i + 1]
    {
      assert Place(get + 1, i) == Place(get, i + 1);
    }
  }

  /** A position at the end means the same as one at the beginning. */
  lemma WrapAround(buffer: seq<int>, put: nat, get: nat)
    requires |buffer| == WORDS && put <= WORDS && get <= WORDS
    ensures put == WORDS ==> Unread(buffer, 0, get) == Unread(buffer, put, get)
    ensures get == WORDS ==> Unread(buffer, put, 0) == Unread(buffer, put, get)
  {
    if put == WORDS { assert UsedWords(0, get) == UsedWords(put, get); }
    if get == WORDS {
      assert UsedWords(put, 0) == UsedWords(put, get);
      forall i: nat
        ensures Place(0, i) == Place(get, i)
      {
      }
    }
  }

  lemma UnreadLength(buffer: seq<int>, put: nat, get: nat)
    requires |buffer| == WORDS && put <= WORDS && get <= WORDS
    ensures |Unread(buffer, put, get)| == UsedWords(put, get) < WORDS
    ensures BytesUsed(put, get) == 4 * |Unread(buffer, put, get)|
    ensures BytesFree(put, get) == 4 * (WORDS - 1 - |Unread(buffer, put, get)|) + 3
    ensures get == WORDS || |Unread(buffer, put, get)| <= WORDS - get || put < get
  {
    UsedAndFree(put, get);
  }

  lemma NeverFull(buffer: seq<int>, put: nat, get: nat)
    requires |buffer| == WORDS && put <= WORDS && get <= WORDS
    ensures |Unread(buffer, put, get)| < WORDS
  {
  }

  class OutBuffer {
    const buffer: array<int>
    var put: nat
    var get: nat
    /** All words ever put, and all ever taken. */
    ghost var written: seq<int>
    ghost var taken: seq<int>

    ghost function Contents(): seq<int>
      reads this, buffer
      requires buffer.Length == WORDS
    {
      Unread(buffer[..], put, get)
    }

    /** First in, first out: what was taken and what is unread is what was put. */
    ghost predicate Valid()
      reads this, buffer
    {
      buffer.Length == WORDS && put <= WORDS && get <= WORDS && taken + Contents() == written
    }

    /** buf_init */
    constructor ()
      ensures Valid() && written == [] && taken == [] && Contents() == [] && fresh(buffer)
    {
      buffer := new int[WORDS];
      put, get := 0, 0;
      written, taken := [], [];
    }

    /** buf->get = buf->bs at the end of the buffer. */
    method Rewind()
      requires Valid() && get == WORDS
      modifies this`get
      ensures Valid() && get == 0 && Contents() == old(Contents())
    {
      hide Unread;
      WrapAround(buffer[..], put, get);
      get := 0;
    }

    static lemma TwoTakes(c: seq<int>, c1: seq<int>, c2: seq<int>, t: seq<int>, t1: seq<int>, t2: seq<int>, n: nat,
                          m: nat)
      requires n + m <= |c| && c1 == c[n..] && c2 == c1[m..] && t1 == t + c[..n] && t2 == t1 + c1[..m]
      ensures c2 == c[n + m..] && t2 == t + c[..n + m]
    {
      assert c[..n + m] == c[..n] + c[n..][..m];
    }

    /** A copy of n words of c to the words of d from at on. */
    static ghost predicate Moved(c: seq<int>, d: seq<int>, d': seq<int>, at: nat, n: nat) {
      && |d'| == |d| && n <= |c| && at + n <= |d|
      && d'[..at] == d[..at] && d'[at..at + n] == c[..n] && d'[at + n..] == d[at + n..]
    }

    static lemma TwoParts(c: seq<int>, d: seq<int>, d1: seq<int>, d2: seq<int>, n: nat, m: nat)
      requires n <= |c| && Moved(c, d, d1, 0, n) && Moved(c[n..], d1, d2, n, m)
      ensures Moved(c, d, d2, 0, n + m)
    {
      assert d2[..n + m] == d2[..n] + d2[n..n + m];
      assert c[..n + m] == c[..n] + c[n..n + m];
    }

    static lemma MovedMore(c: seq<int>, d: seq<int>, d1: seq<int>, d2: seq<int>, at: nat, i: nat)
      requires Moved(c, d, d1, at, i) && i < |c| && at + i < |d| && d2 == d1[at + i := c[i]]
      ensures Moved(c, d, d2, at, i + 1)
      ensures c[i..][1..] == c[i + 1..] && c[..i] + [c[i]] == c[..i + 1]
    {
      assert d2[at..at + i] == d1[at..at + i];
      assert d2[at..at + (i + 1)] == d2[at..at + i] + [c[i]];
      assert d2[at + (i + 1)..] == d1[at + i..][1..];
    }

    /** One word: *p++ = *buf->get++. */
    method TakeWord(data: array<int>, j: nat)
      requires Valid() && data != buffer && get < WORDS && Contents() != [] && j < data.Length
      modifies this`get, this`taken, data
      ensures Valid() && get == old(get) + 1 && Contents() == old(Contents())[1..]
      ensures taken == old(taken) + [old(Contents())[0]]
      ensures data[..] == old(data[..])[j := old(Contents())[0]]
    {
      hide Unread, UsedWords;
      UnreadLength(buffer[..], put, get);
      GetOne(buffer[..], put, get);
      data[j] := buffer[get];
      taken := taken + [buffer[get]];
      get := get + 1;
    }

    /** The copy loop of buf_get. */
    method TakeWords(data: array<int>, at: nat, n: nat)
      requires Valid() && data != buffer && get + n <= WORDS && n <= |Contents()| && at + n <= data.Length
      modifies this`get, this`taken, data
      ensures Valid() && get == old(get) + n && Contents() == old(Contents())[n..]
      ensures taken == old(taken) + old(Contents())[..n]
      ensures Moved(old(Contents()), old(data[..]), data[..], at, n)
    {
      hide Unread, UsedWords;
      ghost var c, d := Contents(), data[..];
      var i := 0;
      while i < n
        invariant 0 <= i <= n && Valid() && get == old(get) + i && Contents() == c[i..] && taken == old(taken) + c[..i]
        invariant Moved(c, d, data[..], at, i)
      {
        ghost var d1 := data[..];
        TakeWord(data, at + i);
        MovedMore(c, d, d1, data[..], at, i);
        i := i + 1;
      }
    }

    /** The end of buf_get, in words: in one piece, or around the end of the buffer in two. */
    method TakeAll(data: array<int>, len: nat)
      requires Valid() && data != buffer && len <= data.Length && len <= |Contents()|
      modifies this`get, this`taken, data
      ensures Valid() && Contents() == old(Contents())[len..] && taken == old(taken) + old(Contents())[..len]
      ensures Moved(old(Contents()), old(data[..]), data[..], 0, len)
    {
      hide Unread, UsedWords, BytesUsed, BytesFree, Moved;
      NeverFull(buffer[..], put, get);
      ghost var c, d := Contents(), data[..];
      var cnt := WORDS - get;
      if len > cnt {
        ghost var t := taken;
        TakeWords(data, 0, cnt);
        ghost var c1, d1, t1 := Contents(), data[..], taken;
        Rewind();
        TakeWords(data, cnt, len - cnt);
        TwoParts(c, d, d1, data[..], cnt, len - cnt);
        TwoTakes(c, c1, Contents(), t, t1, taken, cnt, len - cnt);
      } else {
        TakeWords(data, 0, len);
      }
    }

    static lemma OnePart(c: seq<int>, d: seq<int>, d': seq<int>, n: nat)
      requires Moved(c, d, d', 0, n)
      ensures d'[..n] == c[..n] && d'[n..] == d[n..]
    {
    }

    /** buf_get */
    method Get(data: array<int>, len0: nat) returns (len: nat)
      requires Valid() && data != buffer && len0 % 4 == 0 && len0 <= 4 * data.Length
      modifies this`get, this`taken, data
      ensures Valid() && len % 4 == 0
      ensures len == if len0 > 4 * |old(Contents())| then 4 * |old(Contents())| else len0
      ensures Contents() == old(Contents())[len / 4..] && taken == old(taken) + old(Contents())[..len / 4]
      ensures data[..len / 4] == old(Contents())[..len / 4] && data[len / 4..] == old(data[len / 4..])
    {
      hide Unread, UsedWords, BytesUsed, Moved;
      UnreadLength(buffer[..], put, get);
      len := len0;
      if len > BytesUsed(put, get) {
        len := BytesUsed(put, get);
      }
      if len == 0 {
        return;
      }
      ghost var c, d := Contents(), data[..];
      TakeAll(data, len / 4);
      OnePart(c, d, data[..], len / 4);
    }

    /** One word: *buf->put++ = *p++. */
    method PutWord(x: int)
      requires Valid() && put < WORDS && |Contents()| < WORDS - 1
      modifies this`put, this`written, buffer
      ensures Valid() && put == old(put) + 1 && written == old(written) + [x] && Contents() == old(Contents()) + [x]
    {
      hide Unread, UsedWords;
      UnreadLength(buffer[..], put, get);
      PutOne(buffer[..], put, get, x);
      buffer[put] := x;
      put := put + 1;
      written := written + [x];
    }

    static lemma OneMore(t: seq<int>, data: seq<int>, i: nat)
      requires i < |data|
      ensures t + data[..i] + [data[i]] == t + data[..i + 1]
    {
    }

    /** One word of the copy loop of buf_put; the interrupt has got some words before it. */
    method PutNext(x: int, call: nat, out: array<int>)
      requires Valid() && out != buffer && put < WORDS && |Contents()| < WORDS - 1
      requires call % 4 == 0 && call <= 4 * out.Length
      modifies this, buffer, out
      ensures Valid() && put == old(put) + 1 && written == old(written) + [x] && old(taken) <= taken
      ensures |Contents()| <= |old(Contents())| + 1
    {
      hide Unread, UsedWords;
      var len := Get(out, call);
      PutWord(x);
    }

    /** The copy loop of buf_put. */
    method PutWords(data: seq<int>, calls: seq<nat>, out: array<int>)
      requires Valid() && out != buffer && put + |data| <= WORDS
      requires |Contents()| + |data| <= WORDS - 1 && |calls| == |data|
      requires forall i :: 0 <= i < |calls| ==> calls[i] % 4 == 0 && calls[i] <= 4 * out.Length
      modifies this, buffer, out
      ensures Valid() && put == old(put) + |data| && written == old(written) + data && old(taken) <= taken
      ensures |Contents()| <= |old(Contents())| + |data|
    {
      hide Unread, UsedWords;
      ghost var m, t := |Contents()|, written;
      var i := 0;
      while i < |data|
        invariant 0 <= i <= |data| && Valid() && put == old(put) + i
        invariant written == t + data[..i] && old(taken) <= taken
        invariant |Contents()| <= m + i
      {
        PutNext(data[i], calls[i], out);
        OneMore(t, data, i);
        i := i + 1;
      }
      assert data[..i] == data;
    }

    /** The copying of buf_put, once there is space. */
    method PutAll(data: seq<int>, calls: seq<nat>, turn: nat, out: array<int>) returns (len: nat)
      requires Valid() && out != buffer && 4 * |data| <= BytesFree(put, get) && |calls| == |data|
      requires forall i :: 0 <= i < |calls| ==> calls[i] % 4 == 0 && calls[i] <= 4 * out.Length
      requires turn % 4 == 0 && turn <= 4 * out.Length
      modifies this, buffer, out
      ensures Valid() && written == old(written) + data && old(taken) <= taken && len == 4 * |data|
    {
      hide Unread, UsedWords, BytesFree;
      len := 4 * |data|;
      UnreadLength(buffer[..], put, get);
      var cnt := DATABUFFER_SIZE - 4 * put;
      if len > cnt {
        var n := cnt / 4;
        PutWords(data[..n], calls[..n], out);
        var got := Get(out, turn);
        WrapAround(buffer[..], put, get);
        put := 0;
        PutWords(data[n..], calls[n..], out);
        assert data == data[..n] + data[n..];
      } else {
        PutWords(data, calls, out);
      }
    }

    /** buf_put. The audio interrupt may come while the decoder waits for space, and then between any two words, and get
        some of what is there: `waits` says how many bytes it asks for each time it ends the decoder's sleep, `calls`
        before each word, and `turn` while the put position rests at the end of the buffer. If the interrupts of `waits`
        do not make enough space, the decoder sleeps on and has put nothing. */
    method Put(data: seq<int>, waits: seq<nat>, calls: seq<nat>, turn: nat, out: array<int>)
      returns (done: bool, len: nat)
      requires Valid() && out != buffer && |calls| == |data| && turn % 4 == 0 && turn <= 4 * out.Length
      requires forall i :: 0 <= i < |calls| ==> calls[i] % 4 == 0 && calls[i] <= 4 * out.Length
      requires forall i :: 0 <= i < |waits| ==> waits[i] % 4 == 0 && waits[i] <= 4 * out.Length
      modifies this, buffer, out
      ensures Valid() && old(taken) <= taken && len == 4 * |data|
      ensures done ==> written == old(written) + data
      ensures !done ==> written == old(written) && put == old(put) && len > BytesFree(put, get)
      ensures len <= old(BytesFree(put, get)) ==> done
      ensures len > DATABUFFER_SIZE - 4 ==> !done
    {
      hide Unread, UsedWords, BytesFree;
      len := 4 * |data|;
      UnreadLength(buffer[..], put, get);
      var i := 0;
      while len > BytesFree(put, get) && i < |waits|
        invariant 0 <= i <= |waits| && Valid() && written == old(written) && put == old(put) && old(taken) <= taken
        invariant len <= old(BytesFree(put, get)) ==> get == old(get)
        decreases |waits| - i
      {
        var n := Get(out, waits[i]);
        i := i + 1;
      }
      UnreadLength(buffer[..], put, get);
      done := len <= BytesFree(put, get);
      if done {
        len := PutAll(data, calls, turn, out);
      }
    }
  }
}
