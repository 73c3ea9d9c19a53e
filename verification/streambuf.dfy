/** A queue of characters inside an array that shifts and grows, with a bound on how large it may become. */
module Streambuf {
  import opened Options

  const BUFFER_DELTA: nat := 128
  const READ_SIZE: nat := 512
  const INT_MAX: int := 0x7FFFFFFF
  const INT_WRAP: int := 0x1_0000_0000

  function Min(a: nat, b: nat): nat
  {
    if a < b then a else b
  }

  function Max(a: nat, b: nat): nat
  {
    if a < b then b else a
  }

  /** Narrowing a count to a 32-bit signed integer. */
  function Narrowed(n: nat): int
  {
    var low := n % INT_WRAP;
    if low > INT_MAX then low - INT_WRAP else low
  }

  lemma NarrowedIsExact(n: nat)
    ensures Narrowed(n) == n <==> n <= INT_MAX
  {
  }

  /**
   What a failing reservation leaves to be read: the characters `d` were moved to the front of the
   array, over themselves, but the position `g` that they are read from was not.
   */
  function AfterFailure(d: seq<char>, g: nat): seq<char>
  {
    if g >= |d| then d else d[g..] + d[|d| - g..]
  }

  /** A failing reservation is harmless for whatever is in the queue exactly if the move did not overlap. */
  lemma FailureIsHarmlessExactlyIf(size: nat, g: nat)
    ensures (forall d :: |d| == size ==> AfterFailure(d, g) == d) <==> (g == 0 || size <= g)
  {
    if 0 < g < size {
      var d := seq(size, i => if i == 0 then 'a' else 'b');
      assert AfterFailure(d, g)[0] == 'b';
    }
    if g == 0 {
      forall d: seq<char> | |d| == size
        ensures AfterFailure(d, g) == d
      {
        assert d[|d|..] == [];
      }
    }
  }

  lemma MovingOverKeepsTotal(taken: seq<char>, data: seq<char>, k: nat)
    requires k <= |data|
    ensures (taken + data[..k]) + data[k..] == taken + data
  {
    assert data[..k] + data[k..] == data;
  }

  class Buffer {
    const maxSize: nat
    var buffer: array<char>
    var capacity: nat
    /** Positions in the array: reading from `g` to `e`, and writing from `p` to `pe`. */
    var g: nat
    var e: nat
    var p: nat
    var pe: nat
    /** Everything removed from the queue, and everything added to it, since it was made. */
    ghost var taken: seq<char>
    ghost var written: seq<char>

    ghost predicate Bounded()
      reads this
    {
      && g <= e <= p <= pe <= maxSize
      && buffer.Length == Max(pe, 1) <= capacity
    }

    ghost predicate Valid()
      reads this, buffer
    {
      Bounded() && taken + Data() == written
    }

    /** The characters in the queue. */
    function Data(): seq<char>
      requires Bounded()
      reads this, buffer
    {
      buffer[g..p]
    }

    function Size(): (n: nat)
      requires Bounded()
      reads this, buffer
      ensures n == |Data()|
    {
      p - g
    }

    constructor (maxSize: nat)
      ensures Valid() && this.maxSize == maxSize && Data() == [] && taken == [] && written == []
      ensures fresh(buffer)
    {
      this.maxSize := maxSize;
      var end := Min(maxSize, BUFFER_DELTA);
      buffer := new char[Max(end, 1)](_ => '\0');
      capacity := Max(end, 1);
      g, e, p, pe := 0, 0, 0, end;
      taken, written := [], [];
    }

    /** Makes the array longer; how much the vector allocates is its own business. */
    method Resize(n: nat)
      requires buffer.Length <= n
      modifies this`buffer, this`capacity
      ensures fresh(buffer) && buffer.Length == n <= capacity
      ensures forall k: nat :: k <= old(buffer.Length) ==> buffer[..k] == old(buffer[..k])
    {
      var longer := new char[n](_ => '\0');
      forall i | 0 <= i < buffer.Length {
        longer[i] := buffer[i];
      }
      buffer := longer;
      if capacity < n {
        var grown :| n <= grown;
        capacity := grown;
      }
    }

    /** What is read from the old position once the characters have been moved to the front. */
    lemma SpoiledData(data: seq<char>)
      requires Bounded() && |data| == p - g && buffer[..|data|] == data
      requires if g < |data| then buffer[|data|..p] == data[|data| - g..] else buffer[g..p] == data
      ensures Data() == AfterFailure(data, g)
    {
      if g < |data| {
        assert buffer[g..|data|] == data[g..];
        assert buffer[g..p] == buffer[g..|data|] + buffer[|data|..p];
      }
    }

    /** Moves the characters to the front of the array, without changing where they are read from. */
    method MoveToFront() returns (pnext: nat)
      requires Bounded()
      modifies buffer
      ensures Bounded() && pnext == old(Size()) && buffer[..pnext] == old(Data())
      ensures Data() == AfterFailure(old(Data()), g)
    {
      ghost var data := Data();
      pnext := p;
      if g > 0 {
        pnext := p - g;
        forall i | 0 <= i < pnext {
          buffer[i] := buffer[g + i];
        }
      }
      SpoiledData(data);
    }

    /** Makes room for `n` more characters, unless that would exceed the bound. */
    method Reserve(n: nat) returns (ok: bool)
      requires Valid()
      modifies this, buffer
      ensures Bounded() && (buffer == old(buffer) || fresh(buffer))
      ensures ok <==> n <= old(pe - p) || old(Size()) + n <= maxSize
      ensures taken == old(taken) && written == old(written)
      ensures ok ==> Valid() && Data() == old(Data()) && n <= pe - p
      ensures !ok ==> g == old(g) && e == old(e) && p == old(p) && pe == old(pe) && Data() == AfterFailure(old(Data()), g)
    {
      hide AfterFailure, Buffer.Data;
      ghost var data := Data();
      var pend := pe;
      if n <= pend - p {
        return true;
      }
      var pnext := MoveToFront();
      if n > pend - pnext {
        if n <= maxSize && pnext <= maxSize - n {
          pend := pnext + n;
          Resize(Max(pend, 1));
          assert buffer[..pnext] == data;
        } else {
          return false;
        }
      }
      Rebase(pnext, pend);
      ok := true;
    }

    /** Points at characters that are now at the front of the array. */
    method Rebase(pnext: nat, pend: nat)
      requires pnext <= pend <= maxSize && buffer.Length == Max(pend, 1) <= capacity
      modifies this`g, this`e, this`p, this`pe
      ensures Bounded() && Data() == buffer[..pnext] && p == pnext && pe == pend
    {
      g, e := 0, pnext;
      p, pe := pnext, pend;
    }

    /** Fails exactly if the queue would exceed its bound; then the characters in it may be spoiled. */
    method Prepare(n: nat) returns (ok: bool)
      requires Valid()
      modifies this, buffer
      ensures Bounded() && (buffer == old(buffer) || fresh(buffer))
      ensures ok <==> old(Size()) + n <= maxSize
      ensures ok ==> Valid() && Data() == old(Data()) && n <= pe - p
      ensures !ok ==> g == old(g) && p == old(p) && Data() == AfterFailure(old(Data()), g)
      ensures taken == old(taken) && written == old(written)
    {
      ok := Reserve(n);
    }

    /** What the caller does with the space that was prepared. */
    method Fill(bytes: seq<char>)
      requires Valid() && |bytes| <= pe - p
      modifies buffer
      ensures Valid() && Data() == old(Data()) && buffer[p..p + |bytes|] == bytes
    {
      forall i | 0 <= i < |bytes| {
        buffer[p + i] := bytes[i];
      }
      assert buffer[g..p] == old(buffer[g..p]);
    }

    /** Appends what was filled in. */
    method Commit(n: nat)
      requires Valid() && Min(n, pe - p) <= INT_MAX
      modifies this
      ensures Valid() && buffer == old(buffer) && taken == old(taken) && g == old(g) && pe == old(pe)
      ensures var k := Min(n, old(pe - p));
              Data() == old(Data()) + buffer[old(p)..old(p) + k] && p == old(p) + k
    {
      var k := Min(n, pe - p);
      NarrowedIsExact(k);
      ghost var added := buffer[p..p + k];
      assert buffer[g..p + k] == buffer[g..p] + added;
      p := p + Narrowed(k);
      e := p;
      written := written + added;
      assert taken + Data() == taken + old(Data()) + added;
    }

    /** Removes characters from the front, at most all of them. */
    method Consume(n: nat)
      requires Valid() && Min(n, Size()) <= INT_MAX
      modifies this
      ensures Valid() && buffer == old(buffer) && written == old(written) && p == old(p) && pe == old(pe)
      ensures var k := Min(n, old(Size()));
              Data() == old(Data())[k..] && taken == old(taken) + old(Data())[..k]
    {
      if e < p {
        e := p;
      }
      var k := n;
      if g + k > p {
        k := p - g;
      }
      NarrowedIsExact(k);
      ghost var data := Data();
      MovingOverKeepsTotal(taken, data, k);
      g := g + Narrowed(k);
      taken := taken + data[..k];
      assert Data() == data[k..];
    }

    /** The first character, which stays in the queue. */
    method Underflow() returns (c: Option<char>)
      requires Valid()
      modifies this`e
      ensures Valid() && c == if Data() == [] then None else Some(Data()[0])
      ensures c.Some? ==> g < e
    {
      if g < p {
        e := p;
        return Some(buffer[g]);
      }
      c := None;
    }

    /** Removes the first character. */
    method Take() returns (c: Option<char>)
      requires Valid()
      modifies this`g, this`e, this`taken
      ensures Valid()
      ensures old(Data()) == [] ==> c == None && Data() == [] && taken == old(taken)
      ensures old(Data()) != [] ==>
                c == Some(old(Data())[0]) && Data() == old(Data())[1..] && taken == old(taken) + [old(Data())[0]]
    {
      if g < e {
        c := Some(buffer[g]);
      } else {
        c := Underflow();
      }
      if c.Some? {
        ghost var data := Data();
        MovingOverKeepsTotal(taken, data, 1);
        assert data[..1] == [data[0]];
        g := g + 1;
        taken := taken + [c.value];
        assert Data() == data[1..];
      }
    }

    /** Stores a character at the end; the caller has made room for it. */
    method Store(c: char)
      requires Valid() && p < pe
      modifies this`p, this`written, buffer
      ensures Valid() && Data() == old(Data()) + [c] && written == old(written) + [c]
    {
      ghost var data := Data();
      buffer[p] := c;
      assert buffer[g..p] == data;
      p := p + 1;
      written := written + [c];
      assert Data() == data + [c];
      assert taken + Data() == taken + data + [c];
    }

    /** Appends a character that did not fit, or nothing at the end of input. */
    method Overflow(c: Option<char>) returns (ok: bool)
      requires Valid()
      modifies this, buffer
      ensures Valid() && (buffer == old(buffer) || fresh(buffer)) && taken == old(taken)
      ensures ok <==> c == None || old(Size()) < maxSize
      ensures Data() == if ok && c.Some? then old(Data()) + [c.value] else old(Data())
    {
      if c == None {
        return true;
      }
      if p == pe {
        var bufferSize := p - g;
        assert bufferSize == maxSize ==> g == 0;
        if bufferSize < maxSize && maxSize - bufferSize < BUFFER_DELTA {
          ok := Reserve(maxSize - bufferSize);
        } else {
          ok := Reserve(BUFFER_DELTA);
        }
        if !ok {
          assert AfterFailure(old(Data()), 0) == old(Data());
          return;
        }
      }
      Store(c.value);
      ok := true;
    }

    /** Appends a character; fails exactly if the queue is as large as it may be, and then changes nothing in it. */
    method Put(c: char) returns (ok: bool)
      requires Valid()
      modifies this, buffer
      ensures Valid() && (buffer == old(buffer) || fresh(buffer)) && taken == old(taken)
      ensures ok <==> old(Size()) < maxSize
      ensures Data() == if ok then old(Data()) + [c] else old(Data())
    {
      if p < pe {
        Store(c);
        ok := true;
      } else {
        ok := Overflow(Some(c));
      }
    }

    /** How much to read next: as much as may be without growing the array for more than 512. Preparing that much never fails. */
    method ReadSizeHelper(limit: nat) returns (n: nat)
      requires Valid()
      ensures n <= limit && Size() + n <= maxSize
      ensures n >= Min(READ_SIZE, Min(limit, maxSize - Size()))
      ensures n <= READ_SIZE || Size() + n <= capacity
      ensures n == limit || Size() + n == maxSize || (n >= READ_SIZE && Size() + n >= capacity)
    {
      n := Min(Max(READ_SIZE, capacity - Size()), Min(limit, maxSize - Size()));
    }

    /** Reading from a source into the queue: as much as `available` offers and the helper allows. */
    method Receive(limit: nat, available: seq<char>) returns (n: nat)
      requires Valid() && limit <= INT_MAX
      modifies this, buffer
      ensures Valid() && (buffer == old(buffer) || fresh(buffer)) && taken == old(taken)
      ensures n <= |available| && Data() == old(Data()) + available[..n]
      ensures n == 0 ==> limit == 0 || available == [] || old(Size()) == maxSize
    {
      hide AfterFailure, Buffer.Data;
      var room := ReadSizeHelper(limit);
      var ok := Prepare(room);
      n := Min(room, |available|);
      Fill(available[..n]);
      Commit(n);
    }
  }

  lemma Doubled()
    ensures AfterFailure("bc", 1) == "cc"
  {
  }

  method ThreeLessOne() returns (b: Buffer)
    ensures fresh(b) && fresh(b.buffer) && b.Valid() && b.maxSize == 3 && b.g == 1 && b.Data() == "bc"
  {
    hide Buffer.Data;
    b := new Buffer(3);
    var _ := b.Put('a');
    var _ := b.Put('b');
    var _ := b.Put('c');
    assert b.Data() == "abc" && b.Size() == 3;
    var _ := b.Take();
    assert b.Size() == 2;
  }

  /** Three characters, one of them read; asking for too much then turns the other two into one of them, twice. */
  method SpoiltByFailure() returns (before: seq<char>, after: seq<char>, ok: bool)
    ensures !ok && before == "bc" && after == "cc"
  {
    hide AfterFailure;
    var b := ThreeLessOne();
    before := b.Data();
    ok := b.Prepare(10);
    after := b.Data();
    Doubled();
  }
}
