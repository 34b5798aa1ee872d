/** The string operations the gateway uses on model output: Python's `str.find`, `lstrip`,
    `rstrip`, `startswith` and `endswith`, and the facts about them the proofs need. */
module Text {

  /** Whitespace as Python's `str.strip` understands it. */
  predicate IsSpace(c: char) {
    || '\t' <= c <= '\r'
    || '\U{001C}' <= c <= ' '
    || c == '\U{0085}' || c == '\U{00A0}' || c == '\U{1680}'
    || '\U{2000}' <= c <= '\U{200A}'
    || c == '\U{2028}' || c == '\U{2029}' || c == '\U{202F}' || c == '\U{205F}' || c == '\U{3000}'
  }

  predicate AllSpace(s: string) {
    forall i | 0 <= i < |s| :: IsSpace(s[i])
  }

  /** `pat` occurs in `s` at position `i`. */
  predicate At(s: string, pat: string, i: int) {
    0 <= i && i + |pat| <= |s| && s[i..i + |pat|] == pat
  }

  predicate StartsWith(s: string, pat: string) {
    At(s, pat, 0)
  }

  predicate EndsWith(s: string, pat: string) {
    At(s, pat, |s| - |pat|)
  }

  /** `str.find(pat, start)`: the first occurrence at or after `start`, -1 when there is none. */
  function Find(s: string, pat: string, start: nat): (r: int)
    ensures r == -1 || start <= r <= |s| - |pat|
    decreases |s| - start
  {
    if start + |pat| > |s| then -1
    else if At(s, pat, start) then start
    else Find(s, pat, start + 1)
  }

  predicate Contains(s: string, pat: string) {
    Find(s, pat, 0) != -1
  }

  function LStrip(s: string): (r: string)
    ensures |r| <= |s|
    ensures r != "" ==> !IsSpace(r[0])
  {
    if s == "" || !IsSpace(s[0]) then s else LStrip(s[1..])
  }

  function RStrip(s: string): (r: string)
    ensures |r| <= |s| && r == s[..|r|]
    ensures r != "" ==> !IsSpace(r[|r| - 1])
  {
    if s == "" || !IsSpace(s[|s| - 1]) then s else RStrip(s[..|s| - 1])
  }

  function Strip(s: string): string {
    RStrip(LStrip(s))
  }

  function LowerChar(c: char): char {
    if 'A' <= c <= 'Z' then c + 32 as char else c
  }

  function Lower(s: string): (r: string)
    ensures |r| == |s| && forall i | 0 <= i < |s| :: r[i] == LowerChar(s[i])
  {
    seq(|s|, i requires 0 <= i < |s| => LowerChar(s[i]))
  }

  /** `lstrip` cuts a string into whitespace and what it returns. */
  lemma {:induction false} LStripSplit(s: string) returns (w: string)
    ensures s == w + LStrip(s) && AllSpace(w)
  {
    if s == "" || !IsSpace(s[0]) {
      w := "";
    } else {
      var v := LStripSplit(s[1..]);
      w := [s[0]] + v;
      assert s == [s[0]] + s[1..];
    }
  }

  lemma {:induction false} RStripSplit(s: string) returns (w: string)
    ensures s == RStrip(s) + w && AllSpace(w)
  {
    if s == "" || !IsSpace(s[|s| - 1]) {
      w := "";
    } else {
      var v := RStripSplit(s[..|s| - 1]);
      w := v + [s[|s| - 1]];
      assert s == s[..|s| - 1] + [s[|s| - 1]];
    }
  }

  /** Whitespace in front of a string that starts with none is exactly what `lstrip` drops. */
  lemma {:induction false} LStripUnique(w: string, r: string)
    requires AllSpace(w)
    requires r != "" ==> !IsSpace(r[0])
    ensures LStrip(w + r) == r
  {
    if w == "" {
      assert w + r == r;
    } else {
      assert (w + r)[1..] == w[1..] + r;
      LStripUnique(w[1..], r);
    }
  }

  lemma {:induction false} RStripUnique(r: string, w: string)
    requires AllSpace(w)
    requires r != "" ==> !IsSpace(r[|r| - 1])
    ensures RStrip(r + w) == r
  {
    if w == "" {
      assert r + w == r;
    } else {
      assert (r + w)[..|r + w| - 1] == r + w[..|w| - 1];
      RStripUnique(r, w[..|w| - 1]);
    }
  }

  /** Leading whitespace does not matter to `lstrip`, and what follows the stripped text stays. */
  lemma {:induction false} LStripAppend(p: string, q: string)
    ensures LStrip(p + q) == if LStrip(p) == "" then LStrip(q) else LStrip(p) + q
  {
    if p == "" {
      assert p + q == q;
    } else if IsSpace(p[0]) {
      assert (p + q)[1..] == p[1..] + q;
      LStripAppend(p[1..], q);
    }
  }

  /** What occurs in a string occurs in every string around it, shifted. */
  lemma AtShift(a: string, s: string, b: string, pat: string, i: int)
    requires 0 <= i && i + |pat| <= |s|
    ensures At(a + s + b, pat, |a| + i) == At(s, pat, i)
  {
    assert (a + s + b)[|a| + i..|a| + i + |pat|] == s[i..i + |pat|];
  }

  /** The characters of an occurrence. */
  lemma AtChar(s: string, pat: string, i: int, k: nat)
    requires k < |pat|
    ensures At(s, pat, i) ==> s[i + k] == pat[k]
  {
    assert At(s, pat, i) ==> s[i..i + |pat|][k] == s[i + k];
  }

  /** `find` returns the first occurrence, and -1 only when there is none. */
  lemma {:induction false} FindSpec(s: string, pat: string, start: nat)
    ensures Find(s, pat, start) == -1 ==> forall i | start <= i :: !At(s, pat, i)
    ensures Find(s, pat, start) != -1 ==>
      At(s, pat, Find(s, pat, start)) && forall i | start <= i < Find(s, pat, start) :: !At(s, pat, i)
    decreases |s| - start
  {
    if start + |pat| <= |s| && !At(s, pat, start) { FindSpec(s, pat, start + 1); }
  }

  /** `r` is the first occurrence. */
  lemma FindIs(s: string, pat: string, start: nat, r: int)
    requires start <= r && At(s, pat, r)
    requires forall i | start <= i < r :: !At(s, pat, i)
    ensures Find(s, pat, start) == r
  {
    FindSpec(s, pat, start);
  }

  /** Text in front in which no occurrence can begin shifts the first occurrence. */
  lemma FindBehind(w: string, s: string, pat: string, start: nat)
    requires start <= |w| && pat != ""
    requires forall i | start <= i < |w| :: w[i] != pat[0]
    ensures Find(w + s, pat, start) == if Find(s, pat, 0) == -1 then -1 else |w| + Find(s, pat, 0)
  {
    var t := w + s;
    assert t == w + s + "";
    forall i | start <= i < |w| ensures !At(t, pat, i) { AtChar(t, pat, i, 0); }
    forall i | |w| <= i ensures At(t, pat, i) == At(s, pat, i - |w|) {
      if i + |pat| <= |t| { AtShift(w, s, "", pat, i - |w|); }
    }
    FindSpec(s, pat, 0);
    FindSpec(t, pat, start);
    var f := Find(s, pat, 0);
    if f != -1 {
      assert At(t, pat, |w| + f);
      FindIs(t, pat, start, |w| + f);
    }
  }

  /** So it does to the first occurrence behind a position of the text itself. */
  lemma {:induction false} FindShift(w: string, s: string, pat: string, i: nat)
    ensures Find(w + s, pat, |w| + i) == if Find(s, pat, i) == -1 then -1 else |w| + Find(s, pat, i)
    decreases |s| - i
  {
    if i + |pat| <= |s| {
      assert w + s == w + s + "";
      AtShift(w, s, "", pat, i);
      if !At(s, pat, i) { FindShift(w, s, pat, i + 1); }
    }
  }

  /** A first occurrence stays the first one when text is appended. */
  lemma FindAppend(s: string, q: string, pat: string)
    requires Contains(s, pat)
    ensures Find(s + q, pat, 0) == Find(s, pat, 0)
  {
    var j := Find(s, pat, 0);
    FindSpec(s, pat, 0);
    assert "" + s + q == s + q;
    forall i | 0 <= i <= j ensures At(s + q, pat, i) == At(s, pat, i) { AtShift("", s, q, pat, i); }
    FindIs(s + q, pat, 0, j);
  }

  /** A part contains nothing the whole does not contain. */
  lemma PartContains(a: string, s: string, b: string, pat: string)
    ensures Contains(s, pat) ==> Contains(a + s + b, pat)
  {
    FindSpec(s, pat, 0);
    FindSpec(a + s + b, pat, 0);
    if Contains(s, pat) { AtShift(a, s, b, pat, Find(s, pat, 0)); }
  }

  lemma ContainsAppend(s: string, q: string, pat: string)
    ensures Contains(s, pat) ==> Contains(s + q, pat)
  {
    assert "" + s + q == s + q;
    PartContains("", s, q, pat);
  }

  /** Trimming at the front commutes with trimming at the back. */
  lemma StripOuter(w: string, r: string, v: string)
    requires AllSpace(w) && AllSpace(v)
    requires r != "" ==> !IsSpace(r[0]) && !IsSpace(r[|r| - 1])
    ensures Strip(w + r + v) == r
  {
    if r == "" {
      assert w + r + v == (w + v) + r;
      LStripUnique(w + v, r);
    } else {
      assert w + r + v == w + (r + v);
      LStripUnique(w, r + v);
      RStripUnique(r, v);
    }
  }
}
