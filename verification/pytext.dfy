/** Python's `str.strip()` with no argument: removes leading and trailing
    whitespace, where whitespace is what `str.isspace` accepts. */
module PyText {
  import opened Seqs

  /** The code points for which Python's `str.isspace` holds. */
  predicate IsSpace(c: char)
  {
    var k := c as int;
    || 9 <= k <= 13
    || 28 <= k <= 32
    || k == 0x85 || k == 0xA0 || k == 0x1680
    || 0x2000 <= k <= 0x200A
    || k == 0x2028 || k == 0x2029 || k == 0x202F || k == 0x205F || k == 0x3000
  }

  ghost predicate AllSpace(s: string)
  {
    forall k :: 0 <= k < |s| ==> IsSpace(s[k])
  }

  /** `r` is `s` with `s[..i]` and the text after `r` removed, both all whitespace. */
  ghost predicate SplitsAround(s: string, r: string, i: int)
  {
    0 <= i <= |s| - |r| && s[i..i + |r|] == r && AllSpace(s[..i]) && AllSpace(s[i + |r|..])
  }

  /** Neither starts nor ends with whitespace. */
  predicate Bare(s: string)
  {
    s == [] || (!IsSpace(s[0]) && !IsSpace(s[|s| - 1]))
  }

  /** The length of the whitespace run at the start of `s`. */
  function LeadingSpace(s: string): (n: nat)
    ensures n <= |s|
    ensures forall k :: 0 <= k < n ==> IsSpace(s[k])
    ensures n < |s| ==> !IsSpace(s[n])
  {
    if s == [] || !IsSpace(s[0]) then 0 else 1 + LeadingSpace(s[1..])
  }

  /** The length of the whitespace run at the end of `s`. */
  function TrailingSpace(s: string): (n: nat)
    ensures n <= |s|
    ensures forall k :: |s| - n <= k < |s| ==> IsSpace(s[k])
    ensures n < |s| ==> !IsSpace(s[|s| - 1 - n])
  {
    if s == [] || !IsSpace(s[|s| - 1]) then 0 else 1 + TrailingSpace(s[..|s| - 1])
  }

  /** `s.strip()`: the part of `s` between a whitespace prefix and a
      whitespace suffix that neither starts nor ends with whitespace. */
  function Strip(s: string): (r: string)
    ensures Bare(r)
    ensures exists i :: SplitsAround(s, r, i)
  {
    var i := LeadingSpace(s);
    var t := s[i..];
    var r := t[..|t| - TrailingSpace(t)];
    assert s[i..i + |r|] == r;
    assert AllSpace(s[..i]);
    var tail := s[i + |r|..];
    forall k | 0 <= k < |tail| ensures IsSpace(tail[k]) {
      assert tail[k] == t[|r| + k];
    }
    assert SplitsAround(s, r, i);
    r
  }

  lemma {:induction false} LeadingSpaceSkips(a: string, t: string)
    requires AllSpace(a)
    ensures LeadingSpace(a + t) == |a| + LeadingSpace(t)
    decreases |a|
  {
    if a != [] {
      assert IsSpace(a[0]) && (a + t)[0] == a[0];
      assert (a + t)[1..] == a[1..] + t;
      var rest := a[1..];
      forall k | 0 <= k < |rest| ensures IsSpace(rest[k]) {
        assert rest[k] == a[k + 1];
      }
      LeadingSpaceSkips(rest, t);
    } else {
      assert a + t == t;
    }
  }

  lemma {:induction false} TrailingSpaceSkips(t: string, b: string)
    requires AllSpace(b)
    ensures TrailingSpace(t + b) == |b| + TrailingSpace(t)
    decreases |b|
  {
    if b != [] {
      assert IsSpace(b[|b| - 1]) && (t + b)[|t + b| - 1] == b[|b| - 1];
      assert (t + b)[..|t + b| - 1] == t + b[..|b| - 1];
      var rest := b[..|b| - 1];
      assert AllSpace(rest);
      TrailingSpaceSkips(t, rest);
    } else {
      assert t + b == t;
    }
  }

  /** Text made only of whitespace strips to nothing. */
  lemma StripBlank(s: string)
    requires AllSpace(s)
    ensures Strip(s) == []
  {
    AppendEmpty(s);
    LeadingSpaceSkips(s, []);
    assert LeadingSpace(s) == |s|;
  }

  /** The core of `StripOf` for non-empty kept text. */
  lemma StripOfNonEmpty(a: string, r: string, b: string)
    requires AllSpace(a) && AllSpace(b) && r != [] && Bare(r)
    ensures Strip(a + (r + b)) == r
  {
    var s := a + (r + b);
    LeadingSpaceSkips(a, r + b);
    assert LeadingSpace(r + b) == 0 by {
      assert (r + b)[0] == r[0];
    }
    assert s[|a|..] == r + b;
    TrailingSpaceSkips(r, b);
    assert TrailingSpace(r) == 0;
    assert (r + b)[..|r|] == r;
  }

  /** Strip is determined by what it keeps: whatever bare text sits between
      a whitespace prefix and a whitespace suffix is the result. */
  lemma StripOf(a: string, r: string, b: string)
    requires AllSpace(a) && AllSpace(b) && Bare(r)
    ensures Strip(a + r + b) == r
  {
    AppendAssoc(a, r, b);
    if r == [] {
      AppendEmpty(a);
      AllSpaceAppend(a, b);
      StripBlank(a + b);
    } else {
      StripOfNonEmpty(a, r, b);
    }
  }

  /** Stripping twice is stripping once. */
  lemma StripIdempotent(s: string)
    ensures Strip(Strip(s)) == Strip(s)
  {
    var r := Strip(s);
    assert [] + r + [] == r;
    StripOf([], r, []);
  }

  /** Text whose stripped form is `r` is made of whitespace, then `r`, then whitespace. */
  lemma StripSplits(s: string) returns (a: string, b: string)
    ensures AllSpace(a) && AllSpace(b) && s == a + Strip(s) + b
  {
    var r := Strip(s);
    var i :| SplitsAround(s, r, i);
    a, b := s[..i], s[i + |r|..];
    assert s == s[..i] + s[i..i + |r|] + s[i + |r|..];
  }

  /** Trailing whitespace added before stripping makes no difference. */
  lemma StripDropsTrailingSpace(s: string, b: string)
    requires AllSpace(b)
    ensures Strip(s + b) == Strip(s)
  {
    var a, c := StripSplits(s);
    var r := Strip(s);
    AllSpaceAppend(c, b);
    AppendAssoc(a + r, c, b);
    StripOf(a, r, c + b);
  }

  /** Whitespace on both sides of whitespace is whitespace. */
  lemma AllSpaceAppend(a: string, b: string)
    requires AllSpace(a) && AllSpace(b)
    ensures AllSpace(a + b)
  {
    var ab := a + b;
    forall k | 0 <= k < |ab| ensures IsSpace(ab[k]) {
      if k < |a| { assert ab[k] == a[k]; } else { assert ab[k] == b[k - |a|]; }
    }
  }

  /** Text that starts a bare run and ends a bare run is bare. */
  lemma Bare3(r: string, b: string, w: string)
    requires r != [] && Bare(r) && w != [] && Bare(w)
    ensures Bare(r + b + w)
  {
    var kept := r + b + w;
    assert kept[0] == r[0];
    assert kept[|kept| - 1] == w[|w| - 1];
  }

  /** Stripping text that is whitespace, then bare text, leaves the bare text. */
  lemma StripAfterBlank(blank: string, w: string)
    requires AllSpace(blank) && Bare(w)
    ensures Strip(blank + w) == w
  {
    AppendEmpty(blank + w);
    StripOf(blank, w, []);
  }

  /** Stripping text that is whitespace, then bare text starting a non-blank
      run, then bare text, only drops the leading whitespace. */
  lemma StripKeepsInner(a: string, r: string, b: string, gap: string, w: string)
    requires AllSpace(a) && r != [] && Bare(r) && w != [] && Bare(w)
    ensures Strip(a + r + b + gap + w) == r + b + gap + w
  {
    Bare3(r, b + gap, w);
    AppendAssoc(r, b, gap);
    assert a + r + b + gap + w == a + (r + b + gap + w) + [];
    StripOf(a, r + b + gap + w, []);
  }

  /** Appending whitespace and then bare non-empty text before stripping:
      the leading whitespace goes, everything else stays; if the original is
      all whitespace, only the appended text is left. */
  lemma StripThenAppend(text: string, gap: string, w: string)
    requires AllSpace(gap) && w != [] && Bare(w)
    ensures Strip(text + gap + w) ==
              if Strip(text) == [] then w else text[LeadingSpace(text)..] + gap + w
  {
    var r := Strip(text);
    var a, b := StripSplits(text);
    if r == [] {
      AppendEmpty(b);
      AllSpaceAppend(a, b);
      AllSpaceAppend(text, gap);
      StripAfterBlank(text + gap, w);
    } else {
      StripKeepsInner(a, r, b, gap, w);
      LeadingSpaceSkips(a, r + b);
      AppendAssoc(a, r, b);
      assert (r + b)[0] == r[0];
      assert text[|a|..] == r + b;
      AppendAssoc(r + b, gap, w);
    }
  }
}
