/** The few Python string operations the application relies on:
    `str.strip()`, `str.split(sep)` with a one-character separator, and `sep.join(parts)`. */
module PyText {

  /** The whitespace that `strip()` removes in this model: space, tab, line feed,
      carriage return, vertical tab and form feed. */
  predicate IsSpace(c: char) {
    c == ' ' || c == '\t' || c == '\n' || c == '\r' || c == '\U{000B}' || c == '\U{000C}'
  }

  /** `s` holds whitespace only (the empty string included), i.e. `not s.strip()` in Python. */
  predicate IsBlank(s: string) {
    forall i :: 0 <= i < |s| ==> IsSpace(s[i])
  }

  /** The number of whitespace characters `strip()` removes at the front of `s`. */
  function LeadingSpaces(s: string): (n: nat)
    ensures n <= |s|
    ensures IsBlank(s[..n])
    ensures n < |s| ==> !IsSpace(s[n])
  {
    if s != [] && IsSpace(s[0]) then 1 + LeadingSpaces(s[1..]) else 0
  }

  /** The index at which the trailing whitespace of `s` begins. */
  function TrailingStart(s: string): (m: nat)
    ensures m <= |s|
    ensures IsBlank(s[m..])
    ensures 0 < m ==> !IsSpace(s[m - 1])
  {
    if s != [] && IsSpace(s[|s| - 1]) then TrailingStart(s[..|s| - 1]) else |s|
  }

  /** Python's `s.strip()`: the slice of `s` left once leading and trailing whitespace is removed. */
  function Strip(s: string): (r: string)
    ensures |r| <= |s|
    ensures r == "" <==> IsBlank(s)
    ensures r != "" ==> !IsSpace(r[0]) && !IsSpace(r[|r| - 1])
  {
    var lo, hi := LeadingSpaces(s), TrailingStart(s);
    if lo < |s| then
      assert !IsSpace(s[lo]) && lo < hi;
      s[lo..hi]
    else
      ""
  }

  /** What `strip()` removes: the stripped text is the slice of `s` after its leading
      whitespace, and the parts cut off on either side are whitespace only. */
  lemma StripSlice(s: string)
    ensures var lo, r := LeadingSpaces(s), Strip(s);
      lo + |r| <= |s| && r == s[lo..lo + |r|] && IsBlank(s[..lo]) && IsBlank(s[lo + |r|..])
  {
    var lo, hi := LeadingSpaces(s), TrailingStart(s);
    if lo < |s| {
      assert !IsSpace(s[lo]) && lo < hi;
      assert Strip(s) == s[lo..hi];
    } else {
      assert Strip(s) == "" && s[lo..] == [];
    }
  }

  /** The number of occurrences of `c` in `s`. */
  function Count(s: string, c: char): nat
  {
    if s == [] then 0 else (if s[0] == c then 1 else 0) + Count(s[1..], c)
  }

  /** Python's `sep.join(parts)`. */
  function Join(parts: seq<string>, sep: string): string
  {
    if |parts| == 0 then ""
    else if |parts| == 1 then parts[0]
    else parts[0] + sep + Join(parts[1..], sep)
  }

  /** Python's `s.split(sep)` for a one-character separator: empty pieces are kept, so
      `""` splits into `[""]` and `"a\n"` into `["a", ""]`. */
  function Split(s: string, sep: char): (r: seq<string>)
    ensures |r| == Count(s, sep) + 1
    ensures forall i :: 0 <= i < |r| ==> sep !in r[i]
    ensures Join(r, [sep]) == s
  {
    if s == [] then [""]
    else
      var rest := Split(s[1..], sep);
      if s[0] == sep then
        assert Join([""] + rest, [sep]) == [sep] + Join(rest, [sep]);
        [""] + rest
      else
        var r := [[s[0]] + rest[0]] + rest[1..];
        assert r[1..] == rest[1..];
        assert Join(r, [sep]) == [s[0]] + Join(rest, [sep]);
        r
  }

  /** The total length of the pieces. */
  function TotalLength(parts: seq<string>): nat
  {
    if parts == [] then 0 else |parts[0]| + TotalLength(parts[1..])
  }

  /** Joining n >= 1 pieces adds exactly n - 1 separators. */
  lemma {:induction false} JoinLength(parts: seq<string>, sep: string)
    requires |parts| >= 1
    ensures |Join(parts, sep)| == TotalLength(parts) + (|parts| - 1) * |sep|
  {
    if |parts| > 1 {
      JoinLength(parts[1..], sep);
    }
  }

  /** The joined text begins with the first piece. */
  lemma {:induction false} JoinStartsWithFirst(parts: seq<string>, sep: string)
    requires |parts| >= 1
    ensures |parts[0]| <= |Join(parts, sep)| && Join(parts, sep)[..|parts[0]|] == parts[0]
  {
  }

  /** Appending one piece to a join appends the separator and that piece. */
  lemma {:induction false} JoinSnoc(parts: seq<string>, x: string, sep: string)
    ensures Join(parts + [x], sep) == if parts == [] then x else Join(parts, sep) + sep + x
  {
    if |parts| > 1 {
      assert (parts + [x])[1..] == parts[1..] + [x];
      JoinSnoc(parts[1..], x, sep);
    } else if |parts| == 1 {
      assert (parts + [x])[1..] == [x];
    }
  }

  /** The index of the first `c` in `s`, or `|s|` when there is none. */
  function FirstIndexOf(s: string, c: char): (n: nat)
    ensures n <= |s|
  {
    if s == [] then 0 else if s[0] == c then 0 else 1 + FirstIndexOf(s[1..], c)
  }

  /** In a separator-free word followed by nothing or by the separator, the first separator
      is found right after the word. */
  lemma {:induction false} FirstIndexAfterWord(w: string, rest: string, c: char)
    requires c !in w
    requires rest == [] || rest[0] == c
    ensures FirstIndexOf(w + rest, c) == |w|
  {
    if w != [] {
      assert (w + rest)[1..] == w[1..] + rest;
      FirstIndexAfterWord(w[1..], rest, c);
    }
  }

  /** Two lists of separator-free pieces with the same join are the same list. */
  lemma {:induction false} JoinInjective(p: seq<string>, q: seq<string>, sep: char)
    requires |p| >= 1 && |q| >= 1
    requires forall i :: 0 <= i < |p| ==> sep !in p[i]
    requires forall i :: 0 <= i < |q| ==> sep !in q[i]
    requires Join(p, [sep]) == Join(q, [sep])
    ensures p == q
  {
    var s := Join(p, [sep]);
    var tp := if |p| == 1 then "" else [sep] + Join(p[1..], [sep]);
    var tq := if |q| == 1 then "" else [sep] + Join(q[1..], [sep]);
    assert s == p[0] + tp;
    assert s == q[0] + tq;
    FirstIndexAfterWord(p[0], tp, sep);
    FirstIndexAfterWord(q[0], tq, sep);
    assert p[0] == s[..|p[0]|] == q[0];
    assert tp == tq;
    if |p| > 1 {
      assert Join(p[1..], [sep]) == tp[1..] == Join(q[1..], [sep]);
      JoinInjective(p[1..], q[1..], sep);
      assert p == [p[0]] + p[1..];
      assert q == [q[0]] + q[1..];
    }
  }

  /** `split` undoes `join`: splitting the join of separator-free pieces gives the pieces back. */
  lemma SplitJoin(parts: seq<string>, sep: char)
    requires |parts| >= 1
    requires forall i :: 0 <= i < |parts| ==> sep !in parts[i]
    ensures Split(Join(parts, [sep]), sep) == parts
  {
    var s := Join(parts, [sep]);
    JoinInjective(Split(s, sep), parts, sep);
  }

  /** Leading whitespace ends at the first non-whitespace character. */
  lemma {:induction false} LeadingSpacesAt(s: string, lo: nat)
    requires lo <= |s| && IsBlank(s[..lo])
    requires lo < |s| ==> !IsSpace(s[lo])
    ensures LeadingSpaces(s) == lo
  {
    if 0 < lo {
      assert s[..lo][0] == s[0];
      assert s[1..][..lo - 1] == s[1..lo];
      assert forall i :: 0 <= i < lo - 1 ==> s[1..lo][i] == s[..lo][i + 1];
      LeadingSpacesAt(s[1..], lo - 1);
    }
  }

  /** Trailing whitespace begins right after the last non-whitespace character. */
  lemma {:induction false} TrailingStartAt(s: string, hi: nat)
    requires hi <= |s| && IsBlank(s[hi..])
    requires 0 < hi ==> !IsSpace(s[hi - 1])
    ensures TrailingStart(s) == hi
  {
    if hi < |s| {
      assert s[hi..][|s| - 1 - hi] == s[|s| - 1];
      var t := s[..|s| - 1];
      assert t[hi..] == s[hi..|s| - 1];
      TrailingStartAt(t, hi);
    }
  }

  /** `strip` is characterised by its effect: any slice of `s` that removes only whitespace
      and is bounded by non-whitespace (or is empty) is `Strip(s)`. */
  lemma StripUnique(s: string, lo: nat, hi: nat)
    requires lo <= hi <= |s|
    requires IsBlank(s[..lo]) && IsBlank(s[hi..])
    requires lo < hi ==> !IsSpace(s[lo]) && !IsSpace(s[hi - 1])
    ensures Strip(s) == s[lo..hi]
  {
    if lo < hi {
      LeadingSpacesAt(s, lo);
      TrailingStartAt(s, hi);
    } else {
      assert IsBlank(s) by {
        forall i | 0 <= i < |s| ensures IsSpace(s[i]) {
          if i < lo { assert s[..lo][i] == s[i]; } else { assert s[hi..][i - hi] == s[i]; }
        }
      }
      assert s[..|s|] == s;
      LeadingSpacesAt(s, |s|);
    }
  }

  /** Stripping twice is stripping once. */
  lemma StripIdempotent(s: string)
    ensures Strip(Strip(s)) == Strip(s)
  {
    var r := Strip(s);
    StripUnique(r, 0, |r|);
  }
}
