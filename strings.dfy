/** The parts of Python's `str` that the prompt builder relies on, over `seq<char>`. */
module Strings {

  /** Python's `str.isspace()`: the characters `strip()` and `split()` treat as whitespace. */
  predicate IsSpace(c: char)
  {
    c == ' ' || ('\t' <= c <= '\r') || ('\U{1C}' <= c <= '\U{1F}') || c == '\U{85}' || c == '\U{A0}'
    || c == '\U{1680}' || ('\U{2000}' <= c <= '\U{200A}') || c == '\U{2028}' || c == '\U{2029}'
    || c == '\U{202F}' || c == '\U{205F}' || c == '\U{3000}'
  }

  predicate IsPrefix(p: string, s: string)
  {
    |p| <= |s| && s[..|p|] == p
  }

  predicate IsSuffix(p: string, s: string)
  {
    |p| <= |s| && s[|s| - |p|..] == p
  }

  /** The number of whitespace characters `s` starts with. */
  function LeadingSpaces(s: string): (n: nat)
    ensures n <= |s|
  {
    if s != [] && IsSpace(s[0]) then 1 + LeadingSpaces(s[1..]) else 0
  }

  /** The number of whitespace characters `s` ends with. */
  function TrailingSpaces(s: string): (n: nat)
    ensures n <= |s|
  {
    if s != [] && IsSpace(s[|s| - 1]) then 1 + TrailingSpaces(s[..|s| - 1]) else 0
  }

  lemma {:induction false} LeadingSpacesStop(s: string)
    ensures forall i :: 0 <= i < LeadingSpaces(s) ==> IsSpace(s[i])
    ensures LeadingSpaces(s) == |s| || !IsSpace(s[LeadingSpaces(s)])
  {
    if s != [] && IsSpace(s[0]) {
      LeadingSpacesStop(s[1..]);
    }
  }

  lemma {:induction false} TrailingSpacesStop(s: string)
    ensures forall i :: |s| - TrailingSpaces(s) <= i < |s| ==> IsSpace(s[i])
    ensures TrailingSpaces(s) == |s| || !IsSpace(s[|s| - 1 - TrailingSpaces(s)])
  {
    if s != [] && IsSpace(s[|s| - 1]) {
      TrailingSpacesStop(s[..|s| - 1]);
    }
  }

  /** `s` without its leading whitespace. */
  function LStrip(s: string): string
  {
    s[LeadingSpaces(s)..]
  }

  /** `s` without its trailing whitespace. */
  function RStrip(s: string): string
  {
    s[..|s| - TrailingSpaces(s)]
  }

  /** `s` without its leading and trailing whitespace. */
  function Strip(s: string): (r: string)
    ensures |r| <= |s|
  {
    RStrip(LStrip(s))
  }

  /** What `strip()` leaves neither starts nor ends with whitespace. */
  lemma StripEdges(s: string)
    ensures Strip(s) == [] || (!IsSpace(Strip(s)[0]) && !IsSpace(Strip(s)[|Strip(s)| - 1]))
  {
    var l := LStrip(s);
    LeadingSpacesStop(s);
    TrailingSpacesStop(l);
    var r := Strip(s);
    if r != [] {
      assert r[0] == l[0];
      assert l[0] == s[LeadingSpaces(s)];
    }
  }

  /** A string that neither starts nor ends with whitespace is its own `strip()`. */
  lemma StripNoEdgeSpace(s: string)
    requires s == [] || (!IsSpace(s[0]) && !IsSpace(s[|s| - 1]))
    ensures Strip(s) == s
  {
  }

  /** `strip()` applied twice is `strip()` applied once. */
  lemma StripIdempotent(s: string)
    ensures Strip(Strip(s)) == Strip(s)
  {
    StripEdges(s);
    StripNoEdgeSpace(Strip(s));
  }

  /** `strip()` keeps a prefix whose first and last characters are not whitespace. */
  lemma StripKeepsPrefix(p: string, s: string)
    requires p != [] && IsPrefix(p, s)
    requires !IsSpace(p[0]) && !IsSpace(p[|p| - 1])
    ensures IsPrefix(p, Strip(s))
  {
    assert s[0] == p[0];
    assert LStrip(s) == s;
    TrailingSpacesStop(s);
    assert s[|p| - 1] == p[|p| - 1];
    assert |s| - TrailingSpaces(s) >= |p|;
  }

  /** Right-strip by a character set: drop the trailing characters that belong to `chars`. */
  function RStripChars(s: string, chars: set<char>): (r: string)
    ensures IsPrefix(r, s)
    ensures forall k :: |r| <= k < |s| ==> s[k] in chars
    ensures r == [] || r[|r| - 1] !in chars
  {
    if s != [] && s[|s| - 1] in chars then RStripChars(s[..|s| - 1], chars) else s
  }

  /** Python's `lower()` and `upper()` restricted to ASCII letters. */
  function LowerChar(c: char): char
  {
    if 'A' <= c <= 'Z' then (c as int + 32) as char else c
  }

  function UpperChar(c: char): char
  {
    if 'a' <= c <= 'z' then (c as int - 32) as char else c
  }

  function Lower(s: string): (r: string)
    ensures |r| == |s| && forall i :: 0 <= i < |s| ==> r[i] == LowerChar(s[i])
  {
    seq(|s|, i requires 0 <= i < |s| => LowerChar(s[i]))
  }

  function Upper(s: string): (r: string)
    ensures |r| == |s| && forall i :: 0 <= i < |s| ==> r[i] == UpperChar(s[i])
  {
    seq(|s|, i requires 0 <= i < |s| => UpperChar(s[i]))
  }

  /** `upper()` leaves a prefix without lower-case letters in place. */
  lemma UpperFixesPrefix(p: string, s: string)
    requires IsPrefix(p, s)
    requires forall i :: 0 <= i < |p| ==> !('a' <= p[i] <= 'z')
    ensures IsPrefix(p, Upper(s))
  {
    assert Upper(s)[..|p|] == p;
  }

  lemma LowerAppend(s: string, t: string)
    ensures Lower(s + t) == Lower(s) + Lower(t)
  {
  }

  lemma UpperAppend(s: string, t: string)
    ensures Upper(s + t) == Upper(s) + Upper(t)
  {
  }

  /** Changing the case of a string first does not change its lower-cased form. */
  lemma LowerOfUpper(s: string)
    ensures Lower(Upper(s)) == Lower(s)
  {
  }

  lemma LowerOfLower(s: string)
    ensures Lower(Lower(s)) == Lower(s)
  {
  }

  /** `pat` occurs in `s` starting at index `i`. */
  predicate OccursAt(s: string, pat: string, i: int)
  {
    0 <= i && i + |pat| <= |s| && s[i..i + |pat|] == pat
  }

  /** `i` is the first index at which `pat` occurs in `s`. */
  predicate FirstAt(s: string, pat: string, i: int)
  {
    OccursAt(s, pat, i) && forall j :: 0 <= j < i ==> !OccursAt(s, pat, j)
  }

  /** The first index at or after `i` where `pat` occurs in `s`, or -1. */
  function FindFrom(s: string, pat: string, i: nat): (r: int)
    decreases |s| - i
    ensures r == -1 || (i <= r && OccursAt(s, pat, r))
    ensures r == -1 ==> forall j :: i <= j ==> !OccursAt(s, pat, j)
    ensures r != -1 ==> forall j :: i <= j < r ==> !OccursAt(s, pat, j)
  {
    if i + |pat| > |s| then -1
    else if s[i..i + |pat|] == pat then i
    else FindFrom(s, pat, i + 1)
  }

  /** The first index where `pat` occurs in `s`, or -1. */
  function Find(s: string, pat: string): (r: int)
    ensures r == -1 <==> forall j :: !OccursAt(s, pat, j)
    ensures r != -1 ==> OccursAt(s, pat, r) && forall j :: 0 <= j < r ==> !OccursAt(s, pat, j)
  {
    FindFrom(s, pat, 0)
  }

  /** `Find` returns exactly the first occurrence. */
  lemma FindIsFirst(s: string, pat: string, i: int)
    requires FirstAt(s, pat, i)
    ensures Find(s, pat) == i
  {
    var r := Find(s, pat);
    assert r != -1;
    assert !(r < i) && !(i < r);
  }

  /** `pat` occurs somewhere in `s`. */
  predicate Contains(s: string, pat: string)
  {
    Find(s, pat) != -1
  }

  lemma ContainsAt(s: string, pat: string, i: int)
    requires OccursAt(s, pat, i)
    ensures Contains(s, pat)
  {
  }

  lemma ContainsSelf(s: string)
    ensures Contains(s, s)
  {
    assert OccursAt(s, s, 0);
  }

  /** The parts in order, with `sep` between each two. */
  function Join(sep: string, parts: seq<string>): string
    decreases |parts|
  {
    if |parts| == 0 then ""
    else if |parts| == 1 then parts[0]
    else parts[0] + sep + Join(sep, parts[1..])
  }

  lemma {:induction false} JoinAppend(sep: string, parts: seq<string>, x: string)
    requires parts != []
    ensures Join(sep, parts + [x]) == Join(sep, parts) + sep + x
    decreases |parts|
  {
    if |parts| == 1 {
      assert parts + [x] == [parts[0], x];
    } else {
      assert (parts + [x])[1..] == parts[1..] + [x];
      JoinAppend(sep, parts[1..], x);
    }
  }

  lemma {:induction false} JoinLast(sep: string, parts: seq<string>)
    requires parts != []
    ensures IsSuffix(parts[|parts| - 1], Join(sep, parts))
    decreases |parts|
  {
    if |parts| > 1 {
      JoinLast(sep, parts[1..]);
    }
  }

  lemma {:induction false} JoinFirst(sep: string, parts: seq<string>)
    requires parts != []
    ensures IsPrefix(parts[0], Join(sep, parts))
  {
  }

  lemma ConcatAssociative(a: string, b: string, c: string)
    ensures a + b + c == a + (b + c)
  {
  }

  lemma PrefixConcat(p: string, a: string, b: string)
    requires IsPrefix(p, a)
    ensures IsPrefix(p, a + b)
  {
    assert (a + b)[..|p|] == a[..|p|];
  }

  lemma PrefixTransitive(p: string, q: string, s: string)
    requires IsPrefix(p, q) && IsPrefix(q, s)
    ensures IsPrefix(p, s)
  {
    assert s[..|p|] == s[..|q|][..|p|];
  }

  lemma PrefixPrepend(x: string, p: string, s: string)
    requires IsPrefix(p, s)
    ensures IsPrefix(x + p, x + s)
  {
    assert (x + s)[..|x + p|] == x + s[..|p|];
  }

  lemma SuffixConcat(p: string, a: string, b: string)
    requires IsSuffix(p, b)
    ensures IsSuffix(p, a + b)
  {
    assert (a + b)[|a + b| - |p|..] == b[|b| - |p|..];
  }

  lemma SuffixTransitive(p: string, q: string, s: string)
    requires IsSuffix(p, q) && IsSuffix(q, s)
    ensures IsSuffix(p, s)
  {
    assert s[|s| - |p|..] == s[|s| - |q|..][|q| - |p|..];
  }

  /** A text wrapped between a header and a closing starts with the header and ends with
      the closing, after whatever the text ended with. */
  lemma WrappedShape(header: string, body: string, closing: string, last: string)
    requires IsSuffix(last, body)
    ensures IsPrefix(header, header + body + closing)
    ensures IsSuffix(last + closing, header + body + closing)
  {
    assert (header + body + closing)[..|header|] == header;
    SuffixExtend(last, body, closing);
    SuffixConcat(last + closing, header, body + closing);
    ConcatAssociative(header, body, closing);
  }

  lemma SuffixExtend(p: string, s: string, x: string)
    requires IsSuffix(p, s)
    ensures IsSuffix(p + x, s + x)
  {
    assert (s + x)[|s + x| - |p + x|..] == s[|s| - |p|..] + x;
  }

  /** A character found in neither the separator nor any part is not in the joined text. */
  lemma {:induction false} JoinAvoids(c: char, sep: string, parts: seq<string>)
    requires c !in sep
    requires forall k :: 0 <= k < |parts| ==> c !in parts[k]
    ensures c !in Join(sep, parts)
    decreases |parts|
  {
    if |parts| > 1 {
      JoinAvoids(c, sep, parts[1..]);
    }
  }

  /** The longest prefix of `s` that holds no whitespace. */
  function TakeWord(s: string): (w: string)
    ensures IsPrefix(w, s)
    ensures forall i :: 0 <= i < |w| ==> !IsSpace(w[i])
    ensures |w| == |s| || IsSpace(s[|w|])
  {
    if s == [] || IsSpace(s[0]) then [] else [s[0]] + TakeWord(s[1..])
  }

  /** The word being read, if there is one, as a list of at most one word. */
  function Flush(cur: string): (ws: seq<string>)
    ensures |ws| <= 1 && (ws == [] <==> cur == [])
  {
    if cur == [] then [] else [cur]
  }

  /** The split of `s` scanned one character at a time, `cur` being the word read so far:
      whitespace ends the current word, any other character extends it. */
  function WordsFrom(s: string, cur: string): seq<string>
    decreases |s|
  {
    if s == [] then Flush(cur)
    else if IsSpace(s[0]) then Flush(cur) + WordsFrom(s[1..], [])
    else WordsFrom(s[1..], cur + [s[0]])
  }

  /** Python's whitespace split: the maximal runs of non-whitespace characters, in order. */
  function Words(s: string): seq<string>
  {
    WordsFrom(s, [])
  }

  /** A non-empty run of non-whitespace characters. */
  predicate IsWord(w: string)
  {
    w != [] && forall i :: 0 <= i < |w| ==> !IsSpace(w[i])
  }

  lemma {:induction false} WordsFromAreWords(s: string, cur: string)
    requires forall i :: 0 <= i < |cur| ==> !IsSpace(cur[i])
    ensures forall k :: 0 <= k < |WordsFrom(s, cur)| ==> IsWord(WordsFrom(s, cur)[k])
    decreases |s|
  {
    if s != [] {
      if IsSpace(s[0]) {
        WordsFromAreWords(s[1..], []);
        var f := Flush(cur);
        var rest := WordsFrom(s[1..], []);
        forall k | 0 <= k < |f + rest|
          ensures IsWord((f + rest)[k])
        {
          if k >= |f| {
            assert (f + rest)[k] == rest[k - |f|];
          }
        }
      } else {
        var next := cur + [s[0]];
        forall i | 0 <= i < |next|
          ensures !IsSpace(next[i])
        {
          if i < |cur| {
            assert next[i] == cur[i];
          }
        }
        WordsFromAreWords(s[1..], next);
      }
    }
  }

  /** Every word `split()` yields is non-empty and holds no whitespace. */
  lemma WordsAreWords(s: string)
    ensures forall k :: 0 <= k < |Words(s)| ==> IsWord(Words(s)[k])
  {
    WordsFromAreWords(s, []);
  }

  /** A string in which every whitespace character is a single `' '` strictly between two
      non-whitespace characters. */
  predicate Collapsed(r: string)
  {
    forall i :: 0 <= i < |r| && IsSpace(r[i]) ==> r[i] == ' ' && 0 < i < |r| - 1 && !IsSpace(r[i - 1]) && !IsSpace(r[i + 1])
  }

  /** The words of `s` joined by single blanks. */
  function Collapse(s: string): (r: string)
  {
    Join(" ", Words(s))
  }

  lemma {:induction false} JoinWordsCollapsed(ws: seq<string>)
    requires forall k :: 0 <= k < |ws| ==> IsWord(ws[k])
    ensures Collapsed(Join(" ", ws))
    ensures Join(" ", ws) == [] || (!IsSpace(Join(" ", ws)[0]) && !IsSpace(Join(" ", ws)[|Join(" ", ws)| - 1]))
    decreases |ws|
  {
    if |ws| > 1 {
      var rest := Join(" ", ws[1..]);
      JoinWordsCollapsed(ws[1..]);
      var r := ws[0] + " " + rest;
      assert Join(" ", ws) == r;
      forall i | 0 <= i < |r|
        ensures IsSpace(r[i]) ==> r[i] == ' ' && 0 < i < |r| - 1 && !IsSpace(r[i - 1]) && !IsSpace(r[i + 1])
      {
        if i < |ws[0]| {
          assert r[i] == ws[0][i];
        } else if i > |ws[0]| {
          assert r[i] == rest[i - |ws[0]| - 1];
          if i - 1 > |ws[0]| {
            assert r[i - 1] == rest[i - 1 - |ws[0]| - 1];
          }
        }
      }
    }
  }

  /** Collapsing leaves no leading, trailing, doubled or non-blank whitespace. */
  lemma CollapseIsCollapsed(s: string)
    ensures Collapsed(Collapse(s))
  {
    WordsAreWords(s);
    JoinWordsCollapsed(Words(s));
  }

  /** A run of whitespace ends the word being read and yields nothing more. */
  lemma {:induction false} WordsFromBlank(s: string, cur: string)
    requires forall i :: 0 <= i < |s| ==> IsSpace(s[i])
    ensures WordsFrom(s, cur) == Flush(cur)
    decreases |s|
  {
    if s != [] {
      assert IsSpace(s[0]);
      WordsFromBlank(s[1..], []);
    }
  }

  /** Reading a run of non-whitespace characters only extends the current word. */
  lemma {:induction false} WordsFromWord(w: string, t: string, cur: string)
    requires forall i :: 0 <= i < |w| ==> !IsSpace(w[i])
    ensures WordsFrom(w + t, cur) == WordsFrom(t, cur + w)
    decreases |w|
  {
    if w == [] {
      assert w + t == t && cur + w == cur;
    } else {
      assert (w + t)[0] == w[0] && !IsSpace(w[0]);
      assert (w + t)[1..] == w[1..] + t;
      WordsFromWord(w[1..], t, cur + [w[0]]);
      assert cur + [w[0]] + w[1..] == cur + w;
    }
  }

  /** Leading whitespace does not change the split. */
  lemma {:induction false} WordsDropLeading(s: string, k: nat)
    requires k <= |s|
    requires forall i :: 0 <= i < k ==> IsSpace(s[i])
    ensures Words(s[k..]) == Words(s)
    decreases k
  {
    if k > 0 {
      assert IsSpace(s[0]);
      WordsDropLeading(s[1..], k - 1);
      assert s[1..][k - 1..] == s[k..];
    }
  }

  /** Trailing whitespace does not change the split. */
  lemma {:induction false} WordsDropTrailing(s: string, n: nat, cur: string)
    requires n <= |s|
    requires forall i :: n <= i < |s| ==> IsSpace(s[i])
    ensures WordsFrom(s[..n], cur) == WordsFrom(s, cur)
    decreases |s|
  {
    if n == 0 {
      WordsFromBlank(s, cur);
    } else {
      var p := s[..n];
      assert p[0] == s[0];
      assert p[1..] == s[1..][..n - 1];
      if IsSpace(s[0]) {
        WordsDropTrailing(s[1..], n - 1, []);
      } else {
        WordsDropTrailing(s[1..], n - 1, cur + [s[0]]);
      }
    }
  }

  /** A word followed by a blank splits into that word and the split of what follows. */
  lemma WordsWordBlank(w: string, rest: string)
    requires IsWord(w)
    ensures Words(w + " " + rest) == [w] + Words(rest)
  {
    var blankRest := " " + rest;
    assert w + " " + rest == w + blankRest;
    WordsFromWord(w, blankRest, []);
    assert [] + w == w;
    assert blankRest[1..] == rest;
  }

  /** Stripping a text does not change its words. */
  lemma WordsOfStrip(s: string)
    ensures Words(Strip(s)) == Words(s)
  {
    LeadingSpacesStop(s);
    WordsDropLeading(s, LeadingSpaces(s));
    var l := LStrip(s);
    TrailingSpacesStop(l);
    WordsDropTrailing(l, |l| - TrailingSpaces(l), []);
  }

  /** Splitting words joined by single blanks gives the words back. */
  lemma {:induction false} WordsOfJoin(ws: seq<string>)
    requires forall k :: 0 <= k < |ws| ==> IsWord(ws[k])
    ensures Words(Join(" ", ws)) == ws
    decreases |ws|
  {
    if |ws| == 1 {
      var w := ws[0];
      WordsFromWord(w, [], []);
      assert w + [] == w && [] + w == w;
    } else if |ws| > 1 {
      var w := ws[0];
      var rest := Join(" ", ws[1..]);
      WordsWordBlank(w, rest);
      WordsOfJoin(ws[1..]);
      assert ws == [w] + ws[1..];
    }
  }

  /** Collapsing a text does not change its words. */
  lemma WordsOfCollapse(s: string)
    ensures Words(Collapse(s)) == Words(s)
  {
    WordsAreWords(s);
    WordsOfJoin(Words(s));
  }

  /** What follows a blank of a collapsed text is collapsed too. */
  lemma CollapsedAfterBlank(r: string, k: nat)
    requires Collapsed(r) && k < |r| && IsSpace(r[k])
    ensures Collapsed(r[k + 1..])
  {
    var rest := r[k + 1..];
    forall i | 0 <= i < |rest| && IsSpace(rest[i])
      ensures rest[i] == ' ' && 0 < i < |rest| - 1 && !IsSpace(rest[i - 1]) && !IsSpace(rest[i + 1])
    {
      assert rest[i] == r[k + 1 + i];
      assert !IsSpace(r[k + 1]);
      assert rest[i - 1] == r[k + i];
      assert rest[i + 1] == r[k + 2 + i];
    }
  }

  /** A collapsed text is its own collapse. */
  lemma {:induction false} CollapsedIsCollapse(r: string)
    requires Collapsed(r)
    ensures Collapse(r) == r
    decreases |r|
  {
    if r != [] {
      var w := TakeWord(r);
      if |w| == |r| {
        assert w == r;
        WordsFromWord(r, [], []);
        assert r + [] == r && [] + r == r;
      } else {
        assert w != [] by { assert !IsSpace(r[0]); }
        var rest := r[|w| + 1..];
        CollapsedAfterBlank(r, |w|);
        CollapsedIsCollapse(rest);
        assert r == w + " " + rest by {
          assert r == r[..|w|] + [r[|w|]] + rest;
        }
        WordsWordBlank(w, rest);
        assert Words(rest) != [] by { assert !IsSpace(r[|w| + 1]); }
        assert ([w] + Words(rest))[1..] == Words(rest);
      }
    }
  }

  /** Two collapsed texts with the same words are the same text. */
  lemma CollapsedByWords(a: string, b: string)
    requires Collapsed(a) && Collapsed(b) && Words(a) == Words(b)
    ensures a == b
  {
    CollapsedIsCollapse(a);
    CollapsedIsCollapse(b);
  }

  /** The text after the last `c` in `s`, or all of `s` when `c` does not occur. */
  function AfterLast(s: string, c: char): (r: string)
    ensures IsSuffix(r, s) && c !in r
    ensures |r| < |s| ==> s[|s| - |r| - 1] == c
  {
    if s == [] || s[|s| - 1] == c then [] else AfterLast(s[..|s| - 1], c) + [s[|s| - 1]]
  }

  /** Whatever precedes a final `c`, the text after it is read back exactly. */
  lemma {:induction false} AfterLastOf(x: string, b: string, c: char)
    requires c !in b
    requires x == [] || x[|x| - 1] == c
    ensures AfterLast(x + b, c) == b
    decreases |b|
  {
    if b != [] {
      var b' := b[..|b| - 1];
      assert (x + b)[..|x + b| - 1] == x + b';
      AfterLastOf(x, b', c);
    } else {
      assert x + b == x;
    }
  }

  /** `s` with `pat` deleted: occurrences found left to right, without overlap, are removed. */
  function RemoveAll(s: string, pat: string): (r: string)
    requires pat != []
    ensures |r| <= |s|
    decreases |s|
  {
    if s == [] then []
    else if IsPrefix(pat, s) then RemoveAll(s[|pat|..], pat)
    else [s[0]] + RemoveAll(s[1..], pat)
  }

  lemma OccursShift(s: string, pat: string, i: int)
    requires s != [] && 0 <= i
    ensures OccursAt(s[1..], pat, i) <==> OccursAt(s, pat, i + 1)
  {
    if 0 <= i && i + |pat| <= |s| - 1 {
      assert s[1..][i..i + |pat|] == s[i + 1..i + 1 + |pat|];
    }
  }

  lemma {:induction false} RemoveAllAbsent(s: string, pat: string)
    requires pat != []
    requires forall i :: !OccursAt(s, pat, i)
    ensures RemoveAll(s, pat) == s
    decreases |s|
  {
    if s != [] {
      assert !OccursAt(s, pat, 0);
      forall i ensures !OccursAt(s[1..], pat, i) {
        if 0 <= i {
          OccursShift(s, pat, i);
        }
      }
      RemoveAllAbsent(s[1..], pat);
    }
  }

  /** Removing `pat` from `a + pat` gives back `a` when `a` never holds the first
      character of `pat`. */
  lemma {:induction false} RemoveAllTrailing(a: string, pat: string)
    requires pat != [] && pat[0] !in a
    ensures RemoveAll(a + pat, pat) == a
    decreases |a|
  {
    if a == [] {
      assert a + pat == pat;
      assert (a + pat)[|pat|..] == [];
    } else {
      assert (a + pat)[0] == a[0];
      assert (a + pat)[1..] == a[1..] + pat;
      RemoveAllTrailing(a[1..], pat);
      assert [a[0]] + a[1..] == a;
    }
  }

  function DigitChar(d: nat): char
    requires d < 10
  {
    ('0' as int + d) as char
  }

  function NatToString(n: nat): (r: string)
    ensures r != []
    decreases n
  {
    if n < 10 then [DigitChar(n)] else NatToString(n / 10) + [DigitChar(n % 10)]
  }

  /** The decimal text of an integer, with a leading `-` when it is negative. */
  function IntToString(i: int): (r: string)
    ensures r != []
  {
    if i < 0 then "-" + NatToString(-i) else NatToString(i)
  }

  /** The first `n` values of `f`, in order. */
  function Lines(f: nat -> string, n: nat): (lines: seq<string>)
    ensures |lines| == n
  {
    seq(n, i requires 0 <= i => f(i))
  }

  lemma LinesNext(f: nat -> string, n: nat)
    ensures Lines(f, n + 1) == Lines(f, n) + [f(n)]
  {
    var longer := Lines(f, n + 1);
    forall i | 0 <= i < n
      ensures longer[i] == Lines(f, n)[i]
    {
    }
  }
}
