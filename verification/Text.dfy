/** The handful of Go string operations the modelled code relies on, for ASCII case and white space. */
module Text {
  predicate IsSpace(c: char) {
    c == ' ' || '\t' <= c <= '\r'
  }

  function TrimLeft(s: string): (r: string)
    ensures |r| <= |s|
    ensures r == "" || !IsSpace(r[0])
  {
    if s != "" && IsSpace(s[0]) then TrimLeft(s[1..]) else s
  }

  function TrimRight(s: string): (r: string)
    ensures r <= s
    ensures r == "" || !IsSpace(r[|r| - 1])
  {
    if s != "" && IsSpace(s[|s| - 1]) then TrimRight(s[..|s| - 1]) else s
  }

  /** strings.TrimSpace */
  function Trim(s: string): (r: string)
    ensures r == "" || (!IsSpace(r[0]) && !IsSpace(r[|r| - 1]))
  {
    TrimRight(TrimLeft(s))
  }

  lemma TrimIdempotent(s: string)
    ensures Trim(Trim(s)) == Trim(s)
  {
    assert TrimLeft(Trim(s)) == Trim(s);
  }

  lemma {:induction false} TrimLeftPadded(before: string, s: string)
    requires forall c :: c in before ==> IsSpace(c)
    ensures TrimLeft(before + s) == TrimLeft(s)
  {
    if before == "" {
      assert before + s == s;
    } else {
      assert (before + s)[1..] == before[1..] + s;
      TrimLeftPadded(before[1..], s);
    }
  }

  lemma {:induction false} TrimRightPadded(s: string, after: string)
    requires forall c :: c in after ==> IsSpace(c)
    ensures TrimRight(s + after) == TrimRight(s)
  {
    if after == "" {
      assert s + after == s;
    } else {
      var n := |after| - 1;
      assert after[n] in after && (s + after)[..|s + after| - 1] == s + after[..n];
      TrimRightPadded(s, after[..n]);
    }
  }

  /** Blanks behind: they go, with the whole of a text that is nothing but blanks. */
  lemma {:induction false} TrimLeftBefore(s: string, after: string)
    requires forall c :: c in after ==> IsSpace(c)
    ensures TrimRight(TrimLeft(s + after)) == TrimRight(TrimLeft(s))
  {
    if s == "" {
      assert s + after == after + "";
      TrimLeftPadded(after, "");
    } else if IsSpace(s[0]) {
      assert (s + after)[1..] == s[1..] + after;
      TrimLeftBefore(s[1..], after);
    } else {
      TrimRightPadded(s, after);
    }
  }

  /** Blanks on either side never matter. */
  lemma TrimPadded(before: string, s: string, after: string)
    requires (forall c :: c in before ==> IsSpace(c)) && (forall c :: c in after ==> IsSpace(c))
    ensures Trim(before + s + after) == Trim(s)
  {
    assert before + s + after == before + (s + after);
    TrimLeftPadded(before, s + after);
    TrimLeftBefore(s, after);
  }

  function UpperChar(c: char): char {
    if 'a' <= c <= 'z' then c - 'a' + 'A' else c
  }

  function LowerChar(c: char): char {
    if 'A' <= c <= 'Z' then c - 'A' + 'a' else c
  }

  function Upper(s: string): (r: string)
    ensures |r| == |s|
    ensures forall i :: 0 <= i < |s| ==> r[i] == UpperChar(s[i])
  {
    if s == "" then "" else [UpperChar(s[0])] + Upper(s[1..])
  }

  function Lower(s: string): (r: string)
    ensures |r| == |s|
    ensures forall i :: 0 <= i < |s| ==> r[i] == LowerChar(s[i])
  {
    if s == "" then "" else [LowerChar(s[0])] + Lower(s[1..])
  }

  lemma UpperLower(s: string)
    ensures Upper(Lower(s)) == Upper(s)
  {
  }

  lemma {:induction false} TrimLeftLower(s: string)
    ensures TrimLeft(Lower(s)) == Lower(TrimLeft(s))
  {
    if s != "" && IsSpace(s[0]) {
      assert Lower(s)[1..] == Lower(s[1..]);
      TrimLeftLower(s[1..]);
    }
  }

  lemma {:induction false} TrimRightLower(s: string)
    ensures TrimRight(Lower(s)) == Lower(TrimRight(s))
  {
    if s != "" && IsSpace(s[|s| - 1]) {
      assert Lower(s)[..|s| - 1] == Lower(s[..|s| - 1]);
      TrimRightLower(s[..|s| - 1]);
    }
  }

  lemma TrimLower(s: string)
    ensures Trim(Lower(s)) == Lower(Trim(s))
  {
    TrimLeftLower(s);
    TrimRightLower(TrimLeft(s));
  }

  /** strings.Contains */
  predicate Contains(s: string, part: string) {
    part <= s || (s != "" && Contains(s[1..], part))
  }

  /** The part stands at some position of the text. */
  ghost predicate StandsIn(s: string, part: string) {
    exists i :: 0 <= i <= |s| && IsAt(s, part, i)
  }

  predicate IsAt(s: string, part: string, i: nat)
    requires i <= |s|
  {
    i + |part| <= |s| && s[i..i + |part|] == part
  }

  lemma OneFurther(s: string, part: string, i: nat)
    requires 0 < i <= |s|
    ensures IsAt(s, part, i) <==> IsAt(s[1..], part, i - 1)
  {
    if i + |part| <= |s| {
      assert s[1..][i - 1..i - 1 + |part|] == s[i..i + |part|];
    }
  }

  lemma AtTheFront(s: string, part: string)
    ensures IsAt(s, part, 0) <==> part <= s
  {
  }

  lemma {:induction false} Contained(s: string, part: string, i: nat)
    requires i <= |s| && IsAt(s, part, i)
    ensures Contains(s, part)
  {
    if i == 0 {
      AtTheFront(s, part);
    } else {
      OneFurther(s, part, i);
      Contained(s[1..], part, i - 1);
    }
  }

  lemma {:induction false} FoundAt(s: string, part: string) returns (i: nat)
    requires Contains(s, part)
    ensures i <= |s| && IsAt(s, part, i)
  {
    if part <= s {
      i := 0;
      AtTheFront(s, part);
    } else {
      var j := FoundAt(s[1..], part);
      i := j + 1;
      OneFurther(s, part, i);
    }
  }

  lemma ContainsMeans(s: string, part: string)
    ensures Contains(s, part) <==> StandsIn(s, part)
  {
    if Contains(s, part) {
      var i := FoundAt(s, part);
    }
    if i :| 0 <= i <= |s| && IsAt(s, part, i) {
      Contained(s, part, i);
    }
  }

  /** strings.EqualFold */
  predicate EqualFold(a: string, b: string) {
    Lower(a) == Lower(b)
  }

  /** Go's `<` on strings. */
  predicate Less(a: string, b: string) {
    b != "" && (a == "" || a[0] < b[0] || (a[0] == b[0] && Less(a[1..], b[1..])))
  }

  lemma {:induction false} LessIsTotal(a: string, b: string)
    ensures !(Less(a, b) && Less(b, a))
    ensures a == b || Less(a, b) || Less(b, a)
  {
    if a != "" && b != "" && a[0] == b[0] {
      LessIsTotal(a[1..], b[1..]);
      assert a == [a[0]] + a[1..] && b == [b[0]] + b[1..];
    }
  }

  lemma {:induction false} LessSplits(a: string, b: string, c: string)
    requires Less(a, c)
    ensures Less(a, b) || Less(b, c)
  {
    if a != "" && b != "" && a[0] == b[0] == c[0] {
      LessSplits(a[1..], b[1..], c[1..]);
    }
  }
}
