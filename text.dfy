/** The string operations the core uses: substring search, ASCII case
    mapping, `str.split()` on whitespace, `" ".join`, `str.capitalize` and
    `str.rstrip` of one character. */
module Text {

  /** `str.isspace()` for one character: the characters Python's
      `str.split()` with no argument splits on. */
  predicate IsSpace(c: char)
  {
    var n := c as int;
    (9 <= n <= 13) || (28 <= n <= 32) || n == 0x85 || n == 0xA0 || n == 0x1680
    || (0x2000 <= n <= 0x200A) || n == 0x2028 || n == 0x2029 || n == 0x202F
    || n == 0x205F || n == 0x3000
  }

  predicate IsAsciiUpper(c: char) { 'A' <= c <= 'Z' }
  predicate IsAsciiLower(c: char) { 'a' <= c <= 'z' }

  function LowerChar(c: char): (r: char)
    ensures !IsAsciiUpper(r)
    ensures IsSpace(r) == IsSpace(c)
    ensures !IsAsciiUpper(c) ==> r == c
  {
    if IsAsciiUpper(c) then (c as int + 32) as char else c
  }

  function UpperChar(c: char): (r: char)
    ensures !IsAsciiLower(r)
    ensures IsSpace(r) == IsSpace(c)
    ensures !IsAsciiLower(c) ==> r == c
  {
    if IsAsciiLower(c) then (c as int - 32) as char else c
  }

  /** `s.lower()`, restricted to the ASCII letters. */
  function Lower(s: string): (r: string)
    ensures |r| == |s|
    ensures forall i :: 0 <= i < |s| ==> r[i] == LowerChar(s[i])
  {
    seq(|s|, i requires 0 <= i < |s| => LowerChar(s[i]))
  }

  /** Each string lower-cased. */
  function LowerAll(parts: seq<string>): (r: seq<string>)
    ensures |r| == |parts|
    ensures forall i :: 0 <= i < |parts| ==> r[i] == Lower(parts[i])
  {
    seq(|parts|, i requires 0 <= i < |parts| => Lower(parts[i]))
  }

  /** `pat` occurs in `text` starting at index `i`. */
  predicate OccursAt(text: string, pat: string, i: int)
  {
    0 <= i && i + |pat| <= |text| && text[i..i + |pat|] == pat
  }

  /** Each character of an occurrence is the pattern's. */
  lemma OccursAtChar(text: string, pat: string, i: int, k: int)
    requires OccursAt(text, pat, i) && 0 <= k < |pat|
    ensures text[i + k] == pat[k]
  {
    assert text[i..i + |pat|][k] == pat[k];
  }

  /** `pat in text` for strings. */
  predicate Contains(text: string, pat: string)
  {
    exists i :: 0 <= i <= |text| && OccursAt(text, pat, i)
  }

  /** `sep.join(parts)` */
  function Join(parts: seq<string>, sep: string): (r: string)
    ensures parts == [] ==> r == []
    ensures |parts| == 1 ==> r == parts[0]
  {
    if parts == [] then []
    else if |parts| == 1 then parts[0]
    else parts[0] + sep + Join(parts[1..], sep)
  }

  /** A word as `str.split()` yields it: not empty, no whitespace. */
  predicate IsWord(w: string)
  {
    w != [] && forall i :: 0 <= i < |w| ==> !IsSpace(w[i])
  }

  /** The longest prefix of `s` without whitespace. */
  function Word(s: string): (w: string)
    ensures w <= s
    ensures forall i :: 0 <= i < |w| ==> !IsSpace(w[i])
    ensures |w| < |s| ==> IsSpace(s[|w|])
  {
    if s == [] || IsSpace(s[0]) then [] else [s[0]] + Word(s[1..])
  }

  /** `s.split()`: the maximal runs of non-whitespace, in order. */
  function Split(s: string): (words: seq<string>)
    ensures forall i :: 0 <= i < |words| ==> IsWord(words[i])
    decreases |s|
  {
    if s == [] then []
    else if IsSpace(s[0]) then Split(s[1..])
    else
      var w := Word(s);
      [w] + Split(s[|w|..])
  }

  /** Every character after the first is not an upper-case letter, and
      the first is not a lower-case one. */
  predicate IsCapitalized(w: string)
  {
    (w != [] ==> !IsAsciiLower(w[0])) && forall i :: 1 <= i < |w| ==> !IsAsciiUpper(w[i])
  }

  /** `w.capitalize()`, restricted to the ASCII letters. */
  function Capitalize(w: string): (r: string)
    ensures |r| == |w|
    ensures IsCapitalized(r)
    ensures forall i :: 0 <= i < |w| ==> LowerChar(r[i]) == LowerChar(w[i])
  {
    if w == [] then [] else [UpperChar(w[0])] + Lower(w[1..])
  }

  /** `s.rstrip(c)` for a single character `c`. */
  function RStrip(s: string, c: char): (r: string)
    ensures r <= s
    ensures r == [] || r[|r| - 1] != c
    ensures forall i :: |r| <= i < |s| ==> s[i] == c
  {
    if s != [] && s[|s| - 1] == c then RStrip(s[..|s| - 1], c) else s
  }

  /** Case mapping commutes with concatenation. */
  lemma LowerAppend(a: string, b: string)
    ensures Lower(a + b) == Lower(a) + Lower(b)
  {
    assert forall i :: 0 <= i < |a + b| ==> Lower(a + b)[i] == (Lower(a) + Lower(b))[i];
  }

  /** A separator that cannot occur inside `pat` cannot join two halves of
      an occurrence: `pat` occurs in `a + sep + b` iff it occurs in `a` or
      in `b`. */
  lemma ContainsAcross(a: string, sep: char, b: string, pat: string)
    requires forall k :: 0 <= k < |pat| ==> pat[k] != sep
    ensures Contains(a + [sep] + b, pat) <==> Contains(a, pat) || Contains(b, pat)
  {
    var s := a + [sep] + b;
    if Contains(s, pat) {
      var i :| 0 <= i <= |s| && OccursAt(s, pat, i);
      if i + |pat| <= |a| {
        assert forall k :: 0 <= k < |pat| ==> a[i + k] == s[i + k] == pat[k];
        assert a[i..i + |pat|] == pat;
        assert OccursAt(a, pat, i);
      } else if i >= |a| + 1 {
        var j := i - |a| - 1;
        assert forall k :: 0 <= k < |pat| ==> b[j + k] == s[i + k] == pat[k];
        assert b[j..j + |pat|] == pat;
        assert OccursAt(b, pat, j);
      } else {
        OccursAtChar(s, pat, i, |a| - i);
        assert false;
      }
    }
    if Contains(a, pat) {
      var i :| 0 <= i <= |a| && OccursAt(a, pat, i);
      assert forall k :: 0 <= k < |pat| ==> s[i + k] == a[i + k] == pat[k];
      assert s[i..i + |pat|] == pat;
      assert OccursAt(s, pat, i);
    }
    if Contains(b, pat) {
      var j :| 0 <= j <= |b| && OccursAt(b, pat, j);
      var i := j + |a| + 1;
      assert forall k :: 0 <= k < |pat| ==> s[i + k] == b[j + k] == pat[k];
      assert s[i..i + |pat|] == pat;
      assert OccursAt(s, pat, i);
    }
  }

  /** A non-empty pattern without `sep` occurs in the joined text iff it
      occurs in one of the parts. */
  lemma {:induction false} ContainsJoin(parts: seq<string>, sep: char, pat: string)
    requires pat != []
    requires forall k :: 0 <= k < |pat| ==> pat[k] != sep
    ensures Contains(Join(parts, [sep]), pat) <==> exists i :: 0 <= i < |parts| && Contains(parts[i], pat)
  {
    if parts == [] {
      assert !OccursAt([], pat, 0);
    } else if |parts| == 1 {
    } else {
      ContainsJoin(parts[1..], sep, pat);
      ContainsAcross(parts[0], sep, Join(parts[1..], [sep]), pat);
      assert Join(parts, [sep]) == parts[0] + [sep] + Join(parts[1..], [sep]);
      if exists i :: 0 <= i < |parts| && Contains(parts[i], pat) {
        var i :| 0 <= i < |parts| && Contains(parts[i], pat);
        if i > 0 {
          assert Contains(parts[1..][i - 1], pat);
        }
      }
      if exists i :: 0 <= i < |parts[1..]| && Contains(parts[1..][i], pat) {
        var i :| 0 <= i < |parts[1..]| && Contains(parts[1..][i], pat);
        assert Contains(parts[i + 1], pat);
      }
    }
  }

  /** Lower-casing the joined text is joining the lower-cased parts, when
      the separator has no case. */
  lemma {:induction false} LowerJoin(parts: seq<string>, sep: char)
    requires !IsAsciiUpper(sep)
    ensures Lower(Join(parts, [sep])) == Join(LowerAll(parts), [sep])
  {
    var lowered := LowerAll(parts);
    if |parts| > 1 {
      LowerJoin(parts[1..], sep);
      assert LowerAll(parts[1..]) == lowered[1..];
      LowerAppend(parts[0], [sep]);
      LowerAppend(parts[0] + [sep], Join(parts[1..], [sep]));
      assert Lower([sep]) == [sep];
    }
  }

  /** The first word of `w + rest` is `w` when `rest` starts at whitespace. */
  lemma {:induction false} WordOfPrefix(w: string, rest: string)
    requires IsWord(w)
    requires rest == [] || IsSpace(rest[0])
    ensures Word(w + rest) == w
  {
    if |w| > 1 {
      WordOfPrefix(w[1..], rest);
      assert (w + rest)[1..] == w[1..] + rest;
    } else {
      assert (w + rest)[1..] == rest;
    }
  }

  /** Splitting undoes joining with one space: the round trip of `split`
      and `" ".join` on words. */
  lemma {:induction false} SplitJoin(words: seq<string>)
    requires forall i :: 0 <= i < |words| ==> IsWord(words[i])
    ensures Split(Join(words, " ")) == words
  {
    if |words| == 1 {
      WordOfPrefix(words[0], []);
      assert words[0] + [] == words[0];
      assert words[0][|words[0]|..] == [];
    } else if |words| > 1 {
      var rest := Join(words[1..], " ");
      var s := words[0] + " " + rest;
      assert Join(words, " ") == s;
      WordOfPrefix(words[0], " " + rest);
      assert s == words[0] + (" " + rest);
      assert s[|words[0]|..] == " " + rest;
      assert (" " + rest)[1..] == rest;
      SplitJoin(words[1..]);
    }
  }

  /** A capitalized word is left unchanged by `capitalize`. */
  lemma CapitalizeFixed(w: string)
    requires IsCapitalized(w)
    ensures Capitalize(w) == w
  {
    if w != [] {
      assert Lower(w[1..]) == w[1..];
    }
  }

  /** Capitalizing keeps a word a word. */
  lemma CapitalizeWord(w: string)
    requires IsWord(w)
    ensures IsWord(Capitalize(w))
  {
    var r := Capitalize(w);
    forall i | 0 <= i < |r| ensures !IsSpace(r[i]) {
      assert IsSpace(LowerChar(r[i])) == IsSpace(r[i]);
      assert IsSpace(LowerChar(w[i])) == IsSpace(w[i]);
    }
  }

  /** A pattern one of whose characters never appears in the text does
      not occur in it. */
  lemma MissingChar(text: string, pat: string, k: nat)
    requires k < |pat| && forall i :: 0 <= i < |text| ==> text[i] != pat[k]
    ensures !Contains(text, pat)
  {
    if Contains(text, pat) {
      var i :| 0 <= i <= |text| && OccursAt(text, pat, i);
      OccursAtChar(text, pat, i, k);
      assert false;
    }
  }

  /** A lower-case letter absent from a string in both cases is absent from
      the lower-cased string. */
  lemma LowerLacks(s: string, c: char)
    requires IsAsciiLower(c) && c !in s && UpperChar(c) !in s
    ensures forall i :: 0 <= i < |Lower(s)| ==> Lower(s)[i] != c
  {
    forall i | 0 <= i < |s|
      ensures Lower(s)[i] != c
    {
      assert s[i] != c && s[i] != UpperChar(c);
    }
  }

  /** A pattern without spaces is absent from the lower-cased `a + " " + b`
      when each side lacks one of its lower-case letters in both cases. */
  lemma MissingAcrossSpace(a: string, b: string, pat: string, ka: nat, kb: nat)
    requires ' ' !in pat && ka < |pat| && kb < |pat|
    requires IsAsciiLower(pat[ka]) && pat[ka] !in a && UpperChar(pat[ka]) !in a
    requires IsAsciiLower(pat[kb]) && pat[kb] !in b && UpperChar(pat[kb]) !in b
    ensures !Contains(Lower(a + " " + b), pat)
  {
    LowerAppend(a, " ");
    LowerAppend(a + " ", b);
    assert Lower(" ") == [' '];
    LowerLacks(a, pat[ka]);
    LowerLacks(b, pat[kb]);
    MissingChar(Lower(a), pat, ka);
    MissingChar(Lower(b), pat, kb);
    ContainsAcross(Lower(a), ' ', Lower(b), pat);
  }
}
