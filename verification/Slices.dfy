/** Go slices: a buffer with room to spare that several slices may share, and append. */
module Slices {

  datatype Slice<T> = Slice(buf: array<T>, len: nat)

  ghost predicate Fits<T>(s: Slice<T>) {
    s.len <= s.buf.Length
  }

  ghost function Items<T>(s: Slice<T>): seq<T>
    requires Fits(s)
    reads s.buf
  {
    s.buf[..s.len]
  }

  method Nil<T(0)>() returns (s: Slice<T>)
    ensures Fits(s) && Items(s) == [] && fresh(s.buf)
  {
    var buf := new T[0];
    s := Slice(buf, 0);
  }

  /** Writes behind the items when the buffer has room, and moves to a larger buffer otherwise. */
  method Append<T(0)>(s: Slice<T>, x: T) returns (r: Slice<T>)
    requires Fits(s)
    modifies s.buf
    ensures Fits(r) && Items(r) == old(Items(s)) + [x]
    ensures Fits(s) && Items(s) == old(Items(s))
    ensures if s.len < s.buf.Length then r.buf == s.buf else fresh(r.buf)
    ensures forall i | 0 <= i < s.buf.Length && i != s.len :: s.buf[i] == old(s.buf[i])
  {
    if s.len < s.buf.Length {
      s.buf[s.len] := x;
      return Slice(s.buf, s.len + 1);
    }
    var larger := new T[2 * s.buf.Length + 1];
    for i := 0 to s.len
      invariant larger[..i] == s.buf[..i]
      invariant s.buf[..] == old(s.buf[..])
    {
      larger[i] := s.buf[i];
    }
    larger[s.len] := x;
    return Slice(larger, s.len + 1);
  }

  /** Two appends to one slice: with room to spare the first result ends up with the second item. */
  method AppendTwice<T(0)>(s: Slice<T>, x: T, y: T) returns (a: Slice<T>, b: Slice<T>)
    requires Fits(s)
    modifies s.buf
    ensures Fits(a) && Fits(b) && Items(b) == old(Items(s)) + [y]
    ensures Items(a) == old(Items(s)) + [if s.len < s.buf.Length then y else x]
  {
    a := Append(s, x);
    ghost var first := Items(a);
    b := Append(s, y);
    assert s.len < s.buf.Length ==> a == b;
    assert s.len == s.buf.Length ==> Items(a) == first;
  }
}
