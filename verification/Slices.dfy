/** Go slices of strings: a length and a shared buffer.  `append` writes in place when the
    capacity allows it, so nested appends over one buffer need an argument. */
module Slices {
  datatype Slice = Slice(buf: array<string>, len: nat)

  predicate Ok(s: Slice) {
    s.len <= s.buf.Length
  }

  function View(s: Slice): seq<string>
    requires Ok(s)
    reads s.buf
  {
    s.buf[..s.len]
  }

  /** A slice that holds `xs` in a buffer of its own with room for `cap` elements. */
  method Make(xs: seq<string>, cap: nat) returns (s: Slice)
    requires |xs| <= cap
    ensures Ok(s) && fresh(s.buf) && s.buf.Length == cap && View(s) == xs
  {
    var buf := new string[cap];
    for i := 0 to |xs|
      invariant buf[..i] == xs[..i]
    {
      buf[i] := xs[i];
    }
    assert xs[..|xs|] == xs;
    return Slice(buf, |xs|);
  }

  /** append(s, xs...): in place when it fits, else into a larger buffer. */
  method Append(s: Slice, xs: seq<string>) returns (r: Slice)
    requires Ok(s)
    modifies s.buf
    ensures Ok(r) && View(r) == old(View(s)) + xs
    ensures if s.len + |xs| <= s.buf.Length then r.buf == s.buf else fresh(r.buf)
    ensures r.buf != s.buf ==> s.buf[..] == old(s.buf[..])
  {
    var buf := s.buf;
    if s.len + |xs| > buf.Length {
      var grown := Make(s.buf[..s.len], 2 * (s.len + |xs|));
      buf := grown.buf;
    }
    ghost var head := buf[..s.len];
    for i := 0 to |xs|
      invariant buf[..s.len] == head && buf[s.len..s.len + i] == xs[..i]
      invariant buf != s.buf ==> s.buf[..] == old(s.buf[..])
    {
      buf[s.len + i] := xs[i];
    }
    assert xs[..|xs|] == xs;
    r := Slice(buf, s.len + |xs|);
    assert View(r) == buf[..s.len] + buf[s.len..s.len + |xs|];
  }

  /** append(lines[:at], append(block, lines[at:]...)...): the tail is copied behind the block
      before the outer append may overwrite it, so the result is the plain splice. */
  method Splice(lines: Slice, at: nat, block: Slice) returns (r: Slice)
    requires Ok(lines) && Ok(block) && at <= lines.len && lines.buf != block.buf
    modifies lines.buf, block.buf
    ensures Ok(r) && View(r) == old(View(lines)[..at] + View(block) + View(lines)[at..])
  {
    ghost var head, mid, tail := View(lines)[..at], View(block), View(lines)[at..];
    assert lines.buf[at..lines.len] == tail;
    var inner := Append(block, lines.buf[at..lines.len]);
    assert View(Slice(lines.buf, at)) == head;
    assert View(inner) == mid + tail;
    r := Append(Slice(lines.buf, at), inner.buf[..inner.len]);
    assert head + (mid + tail) == head + mid + tail;
  }
}
