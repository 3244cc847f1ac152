/** The Python `str` operations the document generator relies on, written out
    over `seq<char>`: `split` and `join` on a one-character separator,
    `strip`, `replace`, and the case mappings `upper`, `lower` and `title`.
    Case mapping covers ASCII and the Latin-1 letters; the rest of Unicode
    case mapping is not modelled. */
module PyStr {

  // ---------------------------------------------------------------------
  // Whitespace and strip()

  /** `c.isspace()`: the code points Python treats as whitespace. */
  predicate IsSpace(c: char) {
    || ('\t' <= c <= '\r')
    || ('\U{1C}' <= c <= ' ')
    || c == '\U{85}' || c == '\U{A0}' || c == '\U{1680}'
    || ('\U{2000}' <= c <= '\U{200A}')
    || c == '\U{2028}' || c == '\U{2029}' || c == '\U{202F}' || c == '\U{205F}' || c == '\U{3000}'
  }

  /** Every character is whitespace (the empty string included). */
  predicate IsBlank(s: string) {
    forall i :: 0 <= i < |s| ==> IsSpace(s[i])
  }

  /** How many whitespace characters `s` starts with. */
  function LeadingSpaces(s: string): (n: nat)
    ensures n <= |s|
    ensures forall i :: 0 <= i < n ==> IsSpace(s[i])
    ensures n < |s| ==> !IsSpace(s[n])
  {
    if s != [] && IsSpace(s[0]) then 1 + LeadingSpaces(s[1..]) else 0
  }

  /** How many whitespace characters `s` ends with. */
  function TrailingSpaces(s: string): (n: nat)
    ensures n <= |s|
    ensures forall i :: |s| - n <= i < |s| ==> IsSpace(s[i])
    ensures n < |s| ==> !IsSpace(s[|s| - n - 1])
  {
    if s != [] && IsSpace(s[|s| - 1]) then 1 + TrailingSpaces(s[..|s| - 1]) else 0
  }

  /** `s.lstrip()`. */
  function StripLeft(s: string): string {
    s[LeadingSpaces(s)..]
  }

  /** `s.rstrip()`. */
  function StripRight(s: string): string {
    s[..|s| - TrailingSpaces(s)]
  }

  /** `s.strip()`. */
  function Strip(s: string): string {
    StripRight(StripLeft(s))
  }

  /** `s.strip()` is falsy exactly when `s` consists of whitespace only. */
  lemma StripEmptyIffBlank(s: string)
    ensures Strip(s) == "" <==> IsBlank(s)
  {
    var n := LeadingSpaces(s);
    var l := s[n..];
    if Strip(s) == "" {
      assert |l| == TrailingSpaces(l);
    }
  }

  // ---------------------------------------------------------------------
  // split() and join()

  /** `s.split(sep)`: the pieces between separators, so one more piece than
      there are separators; `"".split(sep)` is `[""]`. */
  function Split(s: string, sep: char): (r: seq<string>)
    ensures |r| == multiset(s)[sep] + 1
    ensures forall i :: 0 <= i < |r| ==> sep !in r[i]
  {
    if s == [] then [""]
    else
      var rest := Split(s[1..], sep);
      assert s == [s[0]] + s[1..];
      if s[0] == sep then [""] + rest
      else [[s[0]] + rest[0]] + rest[1..]
  }

  /** `sep.join(parts)`; joining no parts gives the empty string. */
  function Join(parts: seq<string>, sep: char): string {
    if parts == [] then ""
    else if |parts| == 1 then parts[0]
    else parts[0] + [sep] + Join(parts[1..], sep)
  }

  /** Splitting at one separator splits the two sides independently. */
  lemma {:induction false} SplitAppend(a: string, b: string, sep: char)
    ensures Split(a + [sep] + b, sep) == Split(a, sep) + Split(b, sep)
  {
    var s := a + [sep] + b;
    if a == [] {
      assert s[1..] == b;
    } else {
      assert s[1..] == a[1..] + [sep] + b;
      SplitAppend(a[1..], b, sep);
    }
  }

  /** A string without the separator is a single piece. */
  lemma {:induction false} SplitWithoutSep(s: string, sep: char)
    requires sep !in s
    ensures Split(s, sep) == [s]
  {
    if s != [] {
      SplitWithoutSep(s[1..], sep);
      assert [s[0]] + s[1..] == s;
    }
  }

  lemma JoinCons(p: string, rest: seq<string>, sep: char)
    requires |rest| >= 1
    ensures Join([p] + rest, sep) == p + [sep] + Join(rest, sep)
  {
    assert ([p] + rest)[1..] == rest;
  }

  /** Prepending a character that is not the separator extends the first piece. */
  lemma SplitExtendsFirst(c: char, t: string, sep: char)
    requires c != sep
    ensures Split([c] + t, sep) == [[c] + Split(t, sep)[0]] + Split(t, sep)[1..]
  {
    var s := [c] + t;
    assert s[0] == c && s[1..] == t;
  }

  /** Extending the first part extends the front of the joined string. */
  lemma JoinExtendsFirst(c: char, parts: seq<string>, sep: char)
    requires |parts| >= 1
    ensures Join([[c] + parts[0]] + parts[1..], sep) == [c] + Join(parts, sep)
  {
    var first := [c] + parts[0];
    if |parts| > 1 {
      assert parts == [parts[0]] + parts[1..];
      JoinCons(parts[0], parts[1..], sep);
      JoinCons(first, parts[1..], sep);
      assert first + [sep] + Join(parts[1..], sep) == [c] + (parts[0] + [sep] + Join(parts[1..], sep));
    } else {
      assert [first] + parts[1..] == [first];
    }
  }

  lemma JoinSplitExtendsFirst(c: char, t: string, sep: char)
    requires c != sep
    requires Join(Split(t, sep), sep) == t
    ensures Join(Split([c] + t, sep), sep) == [c] + t
  {
    SplitExtendsFirst(c, t, sep);
    JoinExtendsFirst(c, Split(t, sep), sep);
  }

  /** Prepending the separator adds an empty first piece. */
  lemma JoinSplitStartsWithSep(t: string, sep: char)
    requires Join(Split(t, sep), sep) == t
    ensures Join(Split([sep] + t, sep), sep) == [sep] + t
  {
    var s := [sep] + t;
    assert s[0] == sep && s[1..] == t;
    var rest := Split(t, sep);
    assert Split(s, sep) == [""] + rest;
    JoinCons("", rest, sep);
  }

  /** Joining the pieces of a split gives back the string. */
  lemma {:induction false} JoinSplit(s: string, sep: char)
    ensures Join(Split(s, sep), sep) == s
  {
    if s != [] {
      JoinSplit(s[1..], sep);
      assert s == [s[0]] + s[1..];
      if s[0] == sep {
        JoinSplitStartsWithSep(s[1..], sep);
      } else {
        JoinSplitExtendsFirst(s[0], s[1..], sep);
      }
    }
  }

  /** Splitting a join gives back the parts, provided there is at least one
      part and no part contains the separator. */
  lemma {:induction false} SplitJoin(parts: seq<string>, sep: char)
    requires |parts| >= 1
    requires forall i :: 0 <= i < |parts| ==> sep !in parts[i]
    ensures Split(Join(parts, sep), sep) == parts
  {
    SplitWithoutSep(parts[0], sep);
    if |parts| > 1 {
      SplitJoin(parts[1..], sep);
      SplitAppend(parts[0], Join(parts[1..], sep), sep);
      assert parts == [parts[0]] + parts[1..];
    }
  }

  /** `s.split(sep)[-1]`: the text after the last separator, or all of `s`. */
  function LastSegment(s: string, sep: char): (r: string)
    ensures sep !in r
  {
    var pieces := Split(s, sep);
    pieces[|pieces| - 1]
  }

  /** Without a separator the last segment is the whole string. */
  lemma LastSegmentWithoutSep(s: string, sep: char)
    requires sep !in s
    ensures LastSegment(s, sep) == s
  {
    SplitWithoutSep(s, sep);
  }

  /** The last segment is what follows the final separator. */
  lemma LastSegmentAfterSep(a: string, e: string, sep: char)
    requires sep !in e
    ensures LastSegment(a + [sep] + e, sep) == e
  {
    SplitAppend(a, e, sep);
    SplitWithoutSep(e, sep);
  }

  // ---------------------------------------------------------------------
  // replace()

  /** `pat` starts at index `i` of `s`. */
  predicate OccursAt(s: string, pat: string, i: nat) {
    i + |pat| <= |s| && s[i..i + |pat|] == pat
  }

  /** `pat in s`. */
  predicate Occurs(s: string, pat: string) {
    exists i: nat | i <= |s| :: OccursAt(s, pat, i)
  }

  /** `s.replace(pat, rep)`: every non-overlapping occurrence, scanning from
      the left, is replaced. */
  function ReplaceAll(s: string, pat: string, rep: string): string
    requires pat != ""
    decreases |s|
  {
    if s == "" then ""
    else if pat <= s then rep + ReplaceAll(s[|pat|..], pat, rep)
    else [s[0]] + ReplaceAll(s[1..], pat, rep)
  }

  /** A string without the pattern is returned unchanged. */
  lemma {:induction false} ReplaceAbsent(s: string, pat: string, rep: string)
    requires pat != "" && !Occurs(s, pat)
    ensures ReplaceAll(s, pat, rep) == s
  {
    if s != "" {
      if pat <= s {
        assert OccursAt(s, pat, 0);
      }
      forall i: nat | OccursAt(s[1..], pat, i) ensures OccursAt(s, pat, i + 1) {
        assert s[i + 1..i + 1 + |pat|] == s[1..][i..i + |pat|];
      }
      ReplaceAbsent(s[1..], pat, rep);
    }
  }

  /** Replacing by something no longer never lengthens the string. */
  lemma {:induction false} ReplaceNoLonger(s: string, pat: string, rep: string)
    requires pat != "" && |rep| <= |pat|
    ensures |ReplaceAll(s, pat, rep)| <= |s|
    decreases |s|
  {
    if s != "" {
      if pat <= s {
        ReplaceNoLonger(s[|pat|..], pat, rep);
      } else {
        ReplaceNoLonger(s[1..], pat, rep);
      }
    }
  }

  /** Replacing by something of the same length keeps the length. */
  lemma {:induction false} ReplaceSameLength(s: string, pat: string, rep: string)
    requires pat != "" && |rep| == |pat|
    ensures |ReplaceAll(s, pat, rep)| == |s|
    decreases |s|
  {
    if s != "" {
      if pat <= s {
        ReplaceSameLength(s[|pat|..], pat, rep);
      } else {
        ReplaceSameLength(s[1..], pat, rep);
      }
    }
  }

  /** With a different, no longer replacement, `s.replace(pat, rep)` leaves
      `s` unchanged exactly when `pat` does not occur in it. */
  lemma {:induction false} ReplaceUnchangedIffAbsent(s: string, pat: string, rep: string)
    requires pat != "" && |rep| <= |pat| && rep != pat
    ensures ReplaceAll(s, pat, rep) == s <==> !Occurs(s, pat)
    decreases |s|
  {
    if !Occurs(s, pat) {
      ReplaceAbsent(s, pat, rep);
    } else {
      var r := ReplaceAll(s, pat, rep);
      if pat <= s {
        ReplaceNoLonger(s[|pat|..], pat, rep);
        if |rep| == |pat| {
          assert r[..|pat|] == rep;
          assert s[..|pat|] == pat;
        }
      } else {
        var i: nat :| i <= |s| && OccursAt(s, pat, i);
        assert OccursAt(s[1..], pat, i - 1) by {
          assert s[1..][i - 1..i - 1 + |pat|] == s[i..i + |pat|];
        }
        ReplaceUnchangedIffAbsent(s[1..], pat, rep);
        assert r[1..] == ReplaceAll(s[1..], pat, rep);
      }
    }
  }

  /** A file extension: a dot followed by at least one character, none of
      them a dot. */
  predicate DotExtension(e: string) {
    |e| >= 2 && e[0] == '.' && forall i :: 1 <= i < |e| ==> e[i] != '.'
  }

  /** A replacement starts with a dot, so as long as the result shows no dot
      it copies the input character by character. */
  lemma {:induction false} DotFreePrefixCopied(t: string, pat: string, rep: string, k: nat)
    requires pat != "" && rep != "" && rep[0] == '.'
    requires k <= |ReplaceAll(t, pat, rep)|
    requires forall j :: 0 <= j < k ==> ReplaceAll(t, pat, rep)[j] != '.'
    ensures k <= |t| && ReplaceAll(t, pat, rep)[..k] == t[..k]
    decreases k
  {
    if k > 0 {
      var r := ReplaceAll(t, pat, rep);
      assert t != "";
      var c := r[0];
      assert c != '.';
      assert pat <= t ==> c == '.';
      var r' := ReplaceAll(t[1..], pat, rep);
      assert r == [t[0]] + r';
      forall j | 0 <= j < k - 1 ensures r'[j] != '.' {
        assert r'[j] == r[j + 1];
      }
      DotFreePrefixCopied(t[1..], pat, rep, k - 1);
      assert r[..k] == [t[0]] + r'[..k - 1];
      assert t[..k] == [t[0]] + t[1..][..k - 1];
    }
  }

  /** An occurrence past a prefix is an occurrence in what follows it. */
  lemma OccursPastPrefix(c: string, t: string, pat: string, i: nat)
    requires |c| <= i
    ensures OccursAt(c + t, pat, i) <==> OccursAt(t, pat, i - |c|)
  {
    if i + |pat| <= |c + t| {
      assert (c + t)[i..i + |pat|] == t[i - |c|..i - |c| + |pat|];
    }
  }

  /** A dot extension cannot start inside another one, nor at its start when
      their second characters differ. */
  lemma NoOccurrenceAcrossReplacement(rep: string, t: string, pat: string)
    requires DotExtension(pat) && DotExtension(rep) && pat[1] != rep[1]
    requires !Occurs(t, pat)
    ensures !Occurs(rep + t, pat)
  {
    var r := rep + t;
    forall i: nat | i <= |r| ensures !OccursAt(r, pat, i) {
      if i >= |rep| {
        OccursPastPrefix(rep, t, pat, i);
      } else if i + |pat| <= |r| {
        var w := r[i..i + |pat|];
        if i == 0 {
          assert w[1] == rep[1];
        } else {
          assert w[0] == rep[i];
        }
      }
    }
  }

  /** Where the input does not start with the pattern, the result does not
      either. */
  lemma NoOccurrenceAtCopiedStart(s: string, pat: string, rep: string)
    requires DotExtension(pat) && DotExtension(rep)
    requires s != "" && !(pat <= s)
    ensures !OccursAt([s[0]] + ReplaceAll(s[1..], pat, rep), pat, 0)
  {
    var r' := ReplaceAll(s[1..], pat, rep);
    var r := [s[0]] + r';
    var k := |pat| - 1;
    if |pat| <= |r| {
      var w := r[..|pat|];
      if j :| 0 <= j < k && r'[j] == '.' {
        assert w[j + 1] == r'[j];
      } else {
        DotFreePrefixCopied(s[1..], pat, rep, k);
        assert w == [s[0]] + r'[..k];
        assert s[..|pat|] == [s[0]] + s[1..][..k];
      }
    }
  }

  /** Replacing a dot extension by a different one that starts with another
      character leaves no occurrence of the pattern behind. */
  lemma {:induction false} ReplaceLeavesNoOccurrence(s: string, pat: string, rep: string)
    requires DotExtension(pat) && DotExtension(rep) && pat[1] != rep[1]
    ensures !Occurs(ReplaceAll(s, pat, rep), pat)
    decreases |s|
  {
    if s != "" {
      if pat <= s {
        ReplaceLeavesNoOccurrence(s[|pat|..], pat, rep);
        NoOccurrenceAcrossReplacement(rep, ReplaceAll(s[|pat|..], pat, rep), pat);
      } else {
        var r' := ReplaceAll(s[1..], pat, rep);
        var r := [s[0]] + r';
        ReplaceLeavesNoOccurrence(s[1..], pat, rep);
        NoOccurrenceAtCopiedStart(s, pat, rep);
        forall i: nat | 1 <= i <= |r| ensures !OccursAt(r, pat, i) {
          OccursPastPrefix([s[0]], r', pat, i);
        }
        assert ReplaceAll(s, pat, rep) == r;
      }
    }
  }

  // ---------------------------------------------------------------------
  // Case mapping: upper(), lower(), title()

  predicate IsUpperChar(c: char) {
    ('A' <= c <= 'Z') || ('\U{C0}' <= c <= '\U{DE}' && c != '\U{D7}')
  }

  /** Lower-case letters, with µ and the ordinal indicators ª and º. */
  predicate IsLowerChar(c: char) {
    || ('a' <= c <= 'z') || ('\U{DF}' <= c <= '\U{FF}' && c != '\U{F7}')
    || c == '\U{AA}' || c == '\U{B5}' || c == '\U{BA}'
  }

  /** A character that has case; `title()` starts a word after any other. */
  predicate IsCased(c: char) {
    IsUpperChar(c) || IsLowerChar(c)
  }

  /** Upper case of one character; ß, µ and ÿ, whose upper case lies
      outside Latin-1 or is two characters long, are left as they are, and
      so are ª and º, which have no upper case. */
  function UpperChar(c: char): char {
    if ('a' <= c <= 'z') || ('\U{E0}' <= c <= '\U{FE}' && c != '\U{F7}') then (c as int - 32) as char else c
  }

  function LowerChar(c: char): char {
    if IsUpperChar(c) then (c as int + 32) as char else c
  }

  /** `s.upper()`. */
  function Upper(s: string): string {
    seq(|s|, i requires 0 <= i < |s| => UpperChar(s[i]))
  }

  /** `s.lower()`. */
  function Lower(s: string): string {
    seq(|s|, i requires 0 <= i < |s| => LowerChar(s[i]))
  }

  /** `title()` continued after a character whose casedness is `prevCased`. */
  function TitleFrom(s: string, prevCased: bool): (r: string)
    ensures |r| == |s|
    ensures forall i :: 0 <= i < |s| ==>
      r[i] == if (if i == 0 then prevCased else IsCased(s[i - 1])) then LowerChar(s[i]) else UpperChar(s[i])
  {
    if s == [] then []
    else [if prevCased then LowerChar(s[0]) else UpperChar(s[0])] + TitleFrom(s[1..], IsCased(s[0]))
  }

  /** `s.title()`: a character following a cased one is lowered, every other
      one is upper-cased, so each word starts with a capital. */
  function Title(s: string): string {
    TitleFrom(s, false)
  }

  /** Case mapping keeps a character's casedness and is idempotent. */
  lemma CaseMapsKeepCased(c: char)
    ensures IsCased(UpperChar(c)) == IsCased(c) && IsCased(LowerChar(c)) == IsCased(c)
    ensures UpperChar(UpperChar(c)) == UpperChar(c) && LowerChar(LowerChar(c)) == LowerChar(c)
  {
  }

  /** `s.replace(a, b)` for single characters. */
  function ReplaceChar(s: string, a: char, b: char): string {
    seq(|s|, i requires 0 <= i < |s| => if s[i] == a then b else s[i])
  }

}
