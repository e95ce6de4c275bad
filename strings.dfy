/** The few Python `str` operations the scraper relies on, over `seq<char>`.
    Case mapping (`lower`, `upper`, `title`) is modelled on ASCII letters only. */
module Strings {
  import opened Wrappers

  /** Python's `str.isspace()`: the characters `strip()` removes when given no argument. */
  predicate IsSpace(c: char) {
    || '\t' <= c <= '\r'
    || '\U{1C}' <= c <= '\U{20}'
    || c == '\U{85}' || c == '\U{A0}' || c == '\U{1680}'
    || '\U{2000}' <= c <= '\U{200A}'
    || c == '\U{2028}' || c == '\U{2029}' || c == '\U{202F}' || c == '\U{205F}' || c == '\U{3000}'
  }

  predicate IsAsciiLetter(c: char) { 'a' <= c <= 'z' || 'A' <= c <= 'Z' }

  predicate IsAsciiDigit(c: char) { '0' <= c <= '9' }

  // ---------------------------------------------------------------------------
  // strip

  /** The longest suffix of `s` whose first character is kept: `s.lstrip(chars)`. */
  function TrimStart(s: string, drop: char -> bool): (r: string)
    ensures |r| <= |s| && r == s[|s| - |r|..]
    ensures r != [] ==> !drop(r[0])
    ensures forall i | 0 <= i < |s| - |r| :: drop(s[i])
    decreases |s|
  {
    if s != [] && drop(s[0]) then TrimStart(s[1..], drop) else s
  }

  /** The longest prefix of `s` whose last character is kept: `s.rstrip(chars)`. */
  function TrimEnd(s: string, drop: char -> bool): (r: string)
    ensures |r| <= |s| && r == s[..|r|]
    ensures r != [] ==> !drop(r[|r| - 1])
    ensures forall i | |r| <= i < |s| :: drop(s[i])
    decreases |s|
  {
    if s != [] && drop(s[|s| - 1]) then TrimEnd(s[..|s| - 1], drop) else s
  }

  /** `s.strip(chars)`: both ends trimmed; what remains is a contiguous slice of `s`. */
  function Trim(s: string, drop: char -> bool): (r: string)
    ensures r != [] ==> !drop(r[0]) && !drop(r[|r| - 1])
    ensures exists i :: SliceAt(s, i, r)
    ensures forall x | x in r :: x in s
  {
    var t := TrimStart(s, drop);
    var r := TrimEnd(t, drop);
    assert SliceAt(s, |s| - |t|, r);
    r
  }

  /** A single dropped character before a kept one is all `lstrip` removes. */
  lemma TrimStartOne(s: string, drop: char -> bool)
    requires |s| >= 2 && drop(s[0]) && !drop(s[1])
    ensures TrimStart(s, drop) == s[1..]
  {
    assert s[1..][0] == s[1];
  }

  /** `rstrip` never reaches into a prefix that ends with a kept character: it keeps that prefix
      and cuts the rest at some point. */
  lemma TrimEndKeepsPrefix(u: string, v: string, drop: char -> bool)
    requires u != [] && !drop(u[|u| - 1])
    ensures var r := TrimEnd(u + v, drop);
            |r| >= |u| && r[..|u|] == u && (r[|u|..] == [] || r[|u|] == v[0])
  {
    var r := TrimEnd(u + v, drop);
    assert r[..|u|] == (u + v)[..|u|] == u;
  }

  /** `strip` of one dropped character, then a core that starts and ends with kept characters,
      then anything: the core survives whole and what follows it is cut at some point. */
  lemma TrimAroundCore(x: char, u: string, v: string, drop: char -> bool) returns (rest: string)
    requires drop(x) && u != [] && !drop(u[0]) && !drop(u[|u| - 1])
    ensures Trim([x] + u + v, drop) == u + rest
    ensures rest == [] || rest[0] == v[0]
  {
    var s := [x] + u + v;
    assert s[0] == x && s[1] == u[0];
    TrimStartOne(s, drop);
    assert s[1..] == u + v;
    TrimEndKeepsPrefix(u, v, drop);
    var path := TrimEnd(u + v, drop);
    rest := path[|u|..];
    assert path == path[..|u|] + rest;
  }

  /** The same, when the first kept character after the core lies at index `k` of what follows. */
  lemma TrimKeepsThrough(x: char, u: string, v: string, k: nat, drop: char -> bool) returns (rest: string)
    requires drop(x) && u != [] && !drop(u[0]) && k < |v| && !drop(v[k])
    ensures Trim([x] + u + v, drop) == u + v[..k + 1] + rest
  {
    var core := u + v[..k + 1];
    assert [x] + u + v == [x] + core + v[k + 1..];
    assert core[0] == u[0] && core[|core| - 1] == v[k];
    rest := TrimAroundCore(x, core, v[k + 1..], drop);
  }

  /** `r` occurs in `s` starting at index `i`. */
  predicate SliceAt(s: string, i: int, r: string) {
    0 <= i <= |s| - |r| && r == s[i..i + |r|]
  }

  /** `s.strip()` with no argument. */
  function Strip(s: string): string {
    Trim(s, IsSpace)
  }

  lemma {:induction false} TrimStartIdempotent(s: string, drop: char -> bool)
    ensures TrimStart(TrimStart(s, drop), drop) == TrimStart(s, drop)
  {
    var t := TrimStart(s, drop);
    if t != [] {
      assert !drop(t[0]);
    }
  }

  /** Stripping twice changes nothing. */
  lemma StripIdempotent(s: string)
    ensures Strip(Strip(s)) == Strip(s)
  {
    var t := TrimStart(s, IsSpace);
    var r := TrimEnd(t, IsSpace);
    assert r == [] || !IsSpace(r[0]);
    TrimStartIdempotent(r, IsSpace);
    assert TrimStart(r, IsSpace) == r;
  }

  // ---------------------------------------------------------------------------
  // case mapping

  function LowerChar(c: char): char {
    if 'A' <= c <= 'Z' then (c as int + 32) as char else c
  }

  function UpperChar(c: char): char {
    if 'a' <= c <= 'z' then (c as int - 32) as char else c
  }

  /** `s.lower()`. */
  function Lower(s: string): (r: string)
    ensures |r| == |s|
  {
    seq(|s|, i requires 0 <= i < |s| => LowerChar(s[i]))
  }

  /** Lower-casing twice is lower-casing once. */
  lemma LowerIdempotent(s: string)
    ensures Lower(Lower(s)) == Lower(s)
  {
    assert forall i | 0 <= i < |s| :: Lower(Lower(s))[i] == LowerChar(LowerChar(s[i])) == LowerChar(s[i]);
  }

  /** `str.title()` from a given state: `afterLetter` says whether the previous character was cased. */
  function TitleFrom(s: string, afterLetter: bool): (r: string)
    ensures |r| == |s|
  {
    if s == [] then []
    else
      var c := s[0];
      var d := if !IsAsciiLetter(c) then c else if afterLetter then LowerChar(c) else UpperChar(c);
      [d] + TitleFrom(s[1..], IsAsciiLetter(c))
  }

  /** `s.title()`: a letter is upper-cased when it starts a run of letters and lower-cased otherwise. */
  function Title(s: string): string {
    TitleFrom(s, false)
  }

  lemma {:induction false} TitleFromAt(s: string, afterLetter: bool, i: nat)
    requires i < |s|
    ensures var prev := if i == 0 then afterLetter else IsAsciiLetter(s[i - 1]);
            TitleFrom(s, afterLetter)[i] ==
              if !IsAsciiLetter(s[i]) then s[i] else if prev then LowerChar(s[i]) else UpperChar(s[i])
  {
    if i > 0 {
      TitleFromAt(s[1..], IsAsciiLetter(s[0]), i - 1);
    }
  }

  /** Character by character, `Title` upper-cases exactly the letters that follow a non-letter
      (or open the string), lower-cases the other letters, and leaves the rest alone. */
  lemma TitleAt(s: string, i: nat)
    requires i < |s|
    ensures |Title(s)| == |s|
    ensures Title(s)[i] ==
              if !IsAsciiLetter(s[i]) then s[i]
              else if i > 0 && IsAsciiLetter(s[i - 1]) then LowerChar(s[i])
              else UpperChar(s[i])
  {
    TitleFromAt(s, false, i);
  }

  // ---------------------------------------------------------------------------
  // replace, containment

  /** `s.replace(a, b)` for one-character `a` and `b`. */
  function ReplaceChar(s: string, a: char, b: char): (r: string)
    ensures |r| == |s|
  {
    seq(|s|, i requires 0 <= i < |s| => if s[i] == a then b else s[i])
  }

  /** `s.replace(c, '')`: every `c` removed, every other character kept as often as it was. */
  function RemoveChar(s: string, c: char): (r: string)
    ensures c !in r
    ensures multiset(r) == multiset(s)[c := 0]
  {
    if s == [] then []
    else
      assert s == [s[0]] + s[1..];
      if s[0] == c then RemoveChar(s[1..], c) else [s[0]] + RemoveChar(s[1..], c)
  }

  /** `s.replace(cs[0], '').replace(cs[1], '')...`: every character of `cs` removed. */
  function RemoveAll(s: string, cs: seq<char>): (r: string)
    ensures forall c | c in cs :: c !in r
    ensures forall x | x !in cs :: multiset(r)[x] == multiset(s)[x]
    decreases |cs|
  {
    if cs == [] then s
    else
      var t := RemoveChar(s, cs[0]);
      assert forall c | c in cs[1..] :: c in cs;
      assert multiset(t)[cs[0]] == 0;
      RemoveAll(t, cs[1..])
  }

  /** Removing a character that does not occur changes nothing. */
  lemma {:induction false} RemoveCharAbsent(s: string, c: char)
    requires c !in s
    ensures RemoveChar(s, c) == s
  {
    if s != [] {
      assert s[0] != c;
      RemoveCharAbsent(s[1..], c);
      assert s == [s[0]] + s[1..];
    }
  }

  predicate StartsWith(s: string, prefix: string) {
    |prefix| <= |s| && s[..|prefix|] == prefix
  }

  /** Python's `needle in s` on strings: `needle` occurs as a contiguous piece of `s`. */
  predicate Contains(s: string, needle: string)
    decreases |s|
  {
    StartsWith(s, needle) || (s != [] && Contains(s[1..], needle))
  }

  /** A witness for `Contains`. */
  lemma {:induction false} ContainsAt(s: string, needle: string, i: nat)
    requires i + |needle| <= |s| && s[i..i + |needle|] == needle
    ensures Contains(s, needle)
  {
    if i > 0 {
      assert s[1..][i - 1..i - 1 + |needle|] == s[i..i + |needle|];
      ContainsAt(s[1..], needle, i - 1);
    }
  }

  /** Concatenating on either side keeps an occurrence. */
  lemma {:induction false} ContainsInside(a: string, m: string, b: string, needle: string)
    requires Contains(m, needle)
    ensures Contains(a + m + b, needle)
  {
    var i := OccurrenceIn(m, needle);
    var s := a + m + b;
    assert s[|a| + i..|a| + i + |needle|] == m[i..i + |needle|];
    ContainsAt(s, needle, |a| + i);
  }

  /** A needle with a character that `s` lacks does not occur in `s`. */
  lemma NotContainsMissingChar(s: string, needle: string, k: nat)
    requires k < |needle| && needle[k] !in s
    ensures !Contains(s, needle)
  {
    if Contains(s, needle) {
      var i := OccurrenceIn(s, needle);
      assert false;
    }
  }

  /** Where `Contains` found its occurrence. */
  lemma {:induction false} OccurrenceIn(s: string, needle: string) returns (i: nat)
    requires Contains(s, needle)
    ensures i + |needle| <= |s| && s[i..i + |needle|] == needle
    decreases |s|
  {
    if StartsWith(s, needle) {
      i := 0;
    } else {
      var j := OccurrenceIn(s[1..], needle);
      assert s[1..][j..j + |needle|] == s[j + 1..j + 1 + |needle|];
      i := j + 1;
    }
  }

  // ---------------------------------------------------------------------------
  // split and join on one character

  /** `s.find(c)`, as an option. */
  function IndexOf(s: string, c: char): (r: Option<nat>)
    ensures r.Some? ==> r.value < |s| && s[r.value] == c && c !in s[..r.value]
    ensures r.None? ==> c !in s
  {
    if s == [] then None
    else if s[0] == c then Some(0)
    else match IndexOf(s[1..], c)
      case None => None
      case Some(i) =>
        assert s[..i + 1] == [s[0]] + s[1..][..i];
        Some(i + 1)
  }

  /** `s.split(c)`: the pieces between occurrences of `c`, at least one. */
  function Split(s: string, c: char): (parts: seq<string>)
    ensures |parts| >= 1
    ensures forall k | 0 <= k < |parts| :: c !in parts[k]
    ensures forall k, x | 0 <= k < |parts| && x in parts[k] :: x in s
    ensures StartsWith(s, parts[0]) && (|parts[0]| == |s| || s[|parts[0]|] == c)
    decreases |s|
  {
    match IndexOf(s, c)
    case None => [s]
    case Some(i) =>
      var rest := Split(s[i + 1..], c);
      assert forall x | x in s[i + 1..] :: x in s;
      [s[..i]] + rest
  }

  /** The first piece of a split reaches up to the first separator. */
  lemma SplitFirstPiece(a: string, b: string, c: char)
    requires c !in a
    requires b == [] || b[0] == c
    ensures Split(a + b, c)[0] == a
  {
    var s := a + b;
    var p := Split(s, c)[0];
    assert forall i | 0 <= i < |a| :: s[i] == a[i] && a[i] in a;
    assert forall i | 0 <= i < |p| :: p[i] == s[i] && p[i] in p;
    assert b != [] ==> s[|a|] == b[0];
  }

  /** `sep.join(parts)`. */
  function Join(parts: seq<string>, sep: string): string
    decreases |parts|
  {
    if |parts| == 0 then ""
    else if |parts| == 1 then parts[0]
    else parts[0] + sep + Join(parts[1..], sep)
  }

  /** `'-' * n` and the like. */
  function Repeat(c: char, n: nat): (r: string)
    ensures |r| == n && forall i | 0 <= i < n :: r[i] == c
  {
    seq(n, _ => c)
  }

  lemma {:induction false} IndexOfAfterFree(a: string, c: char, b: string)
    requires c !in a
    ensures IndexOf(a + [c] + b, c) == Some(|a|)
  {
    if a != [] {
      assert (a + [c] + b)[1..] == a[1..] + [c] + b;
      IndexOfAfterFree(a[1..], c, b);
    }
  }

  /** One step of `split`: the piece before the first separator, then the split of the rest. */
  lemma SplitStep(s: string, c: char, i: nat)
    requires IndexOf(s, c) == Some(i)
    ensures i < |s| && Split(s, c) == [s[..i]] + Split(s[i + 1..], c)
  {
  }

  /** Splitting undoes joining, when no piece holds the separator. */
  lemma {:induction false} SplitJoin(parts: seq<string>, c: char)
    requires |parts| >= 1
    requires forall k | 0 <= k < |parts| :: c !in parts[k]
    ensures Split(Join(parts, [c]), c) == parts
    decreases |parts|
  {
    if |parts| == 1 {
      assert IndexOf(parts[0], c) == None;
    } else {
      var rest := Join(parts[1..], [c]);
      var s := parts[0] + [c] + rest;
      assert Join(parts, [c]) == s;
      IndexOfAfterFree(parts[0], c, rest);
      SplitStep(s, c, |parts[0]|);
      assert s[..|parts[0]|] == parts[0];
      assert s[|parts[0]| + 1..] == rest;
      SplitJoin(parts[1..], c);
      assert parts == [parts[0]] + parts[1..];
    }
  }

  /** Joining undoes splitting. */
  lemma {:induction false} JoinSplit(s: string, c: char)
    ensures Join(Split(s, c), [c]) == s
    decreases |s|
  {
    match IndexOf(s, c)
    case None =>
    case Some(i) =>
      SplitStep(s, c, i);
      var rest := Split(s[i + 1..], c);
      JoinSplit(s[i + 1..], c);
      assert ([s[..i]] + rest)[1..] == rest;
      assert Join([s[..i]] + rest, [c]) == s[..i] + [c] + Join(rest, [c]);
      assert s == s[..i] + [c] + s[i + 1..];
  }

  // ---------------------------------------------------------------------------
  // the regular expression \d+\.?\d*% searched anywhere in a string

  /** `re.search(r'\d+\.?\d*%', s)` succeeds: some `%` is preceded by a digit, or by a `.`
      that is itself preceded by a digit. */
  predicate HasPercentFigure(s: string) {
    exists j | 1 <= j < |s| ::
      s[j] == '%' && (IsAsciiDigit(s[j - 1]) || (j >= 2 && s[j - 1] == '.' && IsAsciiDigit(s[j - 2])))
  }
}
