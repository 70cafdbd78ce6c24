/**
 * Text normalisation and tokenisation used by the similarity metrics
 * (similarity_search.py, `_normalize_text` and `str.split()`).
 */
module Normalization {
  import opened Text

  /** `c.isspace()` (and the regex class `\s`) on ASCII: space, \t \n \v \f \r and 0x1C-0x1F. */
  predicate IsSpace(c: char)
  {
    c == ' ' || ('\t' <= c <= '\r') || ('\U{1C}' <= c <= '\U{1F}')
  }

  /** `re.sub(r'[^a-zA-Z0-9\s]', ' ', s)`: every other character becomes a space. */
  function Scrub(s: string): (r: string)
    ensures |r| == |s|
    ensures forall i :: 0 <= i < |r| ==> IsAlnum(r[i]) || IsSpace(r[i])
    ensures forall i :: 0 <= i < |s| && (IsAlnum(s[i]) || IsSpace(s[i])) ==> r[i] == s[i]
    ensures forall i :: 0 <= i < |s| && !IsAlnum(s[i]) && !IsSpace(s[i]) ==> r[i] == ' '
  {
    seq(|s|, i requires 0 <= i < |s| => if IsAlnum(s[i]) || IsSpace(s[i]) then s[i] else ' ')
  }

  /** `s.lstrip()`: drop the leading whitespace. */
  function SkipSpaces(s: string): (r: string)
    ensures |r| <= |s| && r == s[|s| - |r|..]
    ensures r == [] || !IsSpace(r[0])
    ensures forall i :: 0 <= i < |s| - |r| ==> IsSpace(s[i])
    ensures s != [] && IsSpace(s[0]) ==> |r| < |s|
  {
    if s != [] && IsSpace(s[0]) then SkipSpaces(s[1..]) else s
  }

  /** `s.rstrip()`: drop the trailing whitespace. */
  function StripTrailing(s: string): (r: string)
    ensures |r| <= |s| && r == s[..|r|]
    ensures r == [] || !IsSpace(r[|r| - 1])
    ensures forall i :: |r| <= i < |s| ==> IsSpace(s[i])
  {
    if s != [] && IsSpace(s[|s| - 1]) then StripTrailing(s[..|s| - 1]) else s
  }

  /** `s.strip()`: no whitespace at either end. */
  function Strip(s: string): (r: string)
    ensures r == [] || (!IsSpace(r[0]) && !IsSpace(r[|r| - 1]))
    ensures |r| <= |s|
  {
    StripTrailing(SkipSpaces(s))
  }

  /** `strip()` keeps the words. */
  lemma SplitStrip(s: string)
    ensures Split(Strip(s)) == Split(s)
  {
    SplitStripTrailing(SkipSpaces(s));
    SplitSkipSpaces(s);
  }

  /** Every character of `r` is a single space or a non-space character of `s`. */
  predicate CollapsedFrom(r: string, s: string)
  {
    && (forall i :: 0 <= i < |r| ==> r[i] == ' ' || (!IsSpace(r[i]) && r[i] in s))
    && (forall i :: 0 <= i < |r| - 1 ==> r[i] != ' ' || r[i + 1] != ' ')
  }

  /** Putting one more character in front of a collapsed text keeps it collapsed. */
  lemma ConsCollapsed(c: char, t: string, src: string, s: string)
    requires CollapsedFrom(t, src)
    requires forall x :: x in src ==> x in s
    requires c == ' ' || (!IsSpace(c) && c in s)
    requires c == ' ' ==> t == [] || t[0] != ' '
    ensures CollapsedFrom([c] + t, s)
  {
    var r := [c] + t;
    forall i | 0 <= i < |r| ensures r[i] == ' ' || (!IsSpace(r[i]) && r[i] in s) {
      if i > 0 {
        assert r[i] == t[i - 1];
      }
    }
    forall i | 0 <= i < |r| - 1 ensures r[i] != ' ' || r[i + 1] != ' ' {
      assert r[i + 1] == t[i];
      if i > 0 {
        assert r[i] == t[i - 1];
      }
    }
  }

  /** The characters of a suffix are characters of the whole. */
  lemma SuffixChars(s: string, k: nat)
    requires k <= |s|
    ensures forall x :: x in s[k..] ==> x in s
  {
  }

  /** `re.sub(r'\s+', ' ', s)`: every maximal run of whitespace becomes one space. */
  function Collapse(s: string): (r: string)
    ensures |r| <= |s|
    ensures s != [] ==> r != [] && r[0] == (if IsSpace(s[0]) then ' ' else s[0])
    decreases |s|
  {
    if s == [] then []
    else if IsSpace(s[0]) then [' '] + Collapse(SkipSpaces(s))
    else [s[0]] + Collapse(s[1..])
  }

  /** The collapsed text has no two adjacent spaces, and its other characters come from `s`. */
  lemma {:induction false} CollapseIsCollapsed(s: string)
    ensures CollapsedFrom(Collapse(s), s)
    decreases |s|
  {
    if s == [] {
    } else if IsSpace(s[0]) {
      var rest := SkipSpaces(s);
      CollapseIsCollapsed(rest);
      SuffixChars(s, |s| - |rest|);
      ConsCollapsed(' ', Collapse(rest), rest, s);
    } else {
      CollapseIsCollapsed(s[1..]);
      SuffixChars(s, 1);
      ConsCollapsed(s[0], Collapse(s[1..]), s[1..], s);
    }
  }

  /**
   * `_normalize_text`: lower-case, scrub, collapse whitespace, strip.  The
   * result is normal: only `a-z`, `0-9` and single inner spaces.
   */
  function Normalize(text: string): (r: string)
    ensures IsNormal(r)
  {
    CollapsedChars(text);
    StripIsNormal(Collapse(Scrub(Lower(text))));
    Strip(Collapse(Scrub(Lower(text))))
  }

  /** The characters a normalised text is made of besides single spaces. */
  predicate IsNormChar(c: char) { IsLowerLetter(c) || IsDigit(c) }

  /** Only `a-z`, `0-9` and single inner spaces; no space at either end. */
  predicate IsNormal(s: string)
  {
    && (forall i :: 0 <= i < |s| ==> IsNormChar(s[i]) || s[i] == ' ')
    && (s != [] ==> s[0] != ' ' && s[|s| - 1] != ' ')
    && (forall i :: 0 <= i < |s| - 1 ==> s[i] != ' ' || s[i + 1] != ' ')
  }

  /** After scrubbing and collapsing, only `a-z`, `0-9` and spaces are left. */
  lemma CollapsedChars(text: string)
    ensures NormBody(Collapse(Scrub(Lower(text))))
  {
    var low := Lower(text);
    assert forall i :: 0 <= i < |low| ==> !IsUpper(low[i]);
    var sc := Scrub(low);
    assert forall i :: 0 <= i < |sc| ==> IsNormChar(sc[i]) || IsSpace(sc[i]);
    var co := Collapse(sc);
    CollapseIsCollapsed(sc);
    forall i | 0 <= i < |co| ensures IsNormChar(co[i]) || co[i] == ' ' {
      if co[i] != ' ' {
        var j :| 0 <= j < |sc| && sc[j] == co[i];
      }
    }
  }

  /** Only norm characters and single spaces: what `Strip` leaves normal. */
  predicate NormBody(s: string)
  {
    && (forall i :: 0 <= i < |s| ==> IsNormChar(s[i]) || s[i] == ' ')
    && (forall i :: 0 <= i < |s| - 1 ==> s[i] != ' ' || s[i + 1] != ' ')
  }

  lemma SliceNormBody(s: string, a: nat, b: nat)
    requires NormBody(s) && a <= b <= |s|
    ensures NormBody(s[a..b])
  {
    var t := s[a..b];
    assert forall i :: 0 <= i < |t| ==> t[i] == s[a + i];
  }

  /** Stripping a text of norm characters and single spaces leaves it normal. */
  lemma StripIsNormal(co: string)
    requires NormBody(co)
    ensures IsNormal(Strip(co))
  {
    var lead := SkipSpaces(co);
    SliceNormBody(co, |co| - |lead|, |co|);
    var st := StripTrailing(lead);
    SliceNormBody(lead, 0, |st|);
  }

  /** No whitespace other than single `' '` characters. */
  predicate SingleSpaced(s: string)
  {
    && (forall i :: 0 <= i < |s| ==> s[i] == ' ' || !IsSpace(s[i]))
    && (forall i :: 0 <= i < |s| - 1 ==> s[i] != ' ' || s[i + 1] != ' ')
  }

  lemma SingleSpacedTail(s: string)
    requires SingleSpaced(s) && s != []
    ensures SingleSpaced(s[1..])
  {
    var t := s[1..];
    assert forall i :: 0 <= i < |t| ==> t[i] == s[i + 1];
  }

  /** A run of single spaces between non-space characters is left alone by `Collapse`. */
  lemma {:induction false} CollapseFixed(s: string)
    requires SingleSpaced(s)
    ensures Collapse(s) == s
    decreases |s|
  {
    if s != [] {
      var t := s[1..];
      SingleSpacedTail(s);
      CollapseFixed(t);
      if IsSpace(s[0]) {
        assert t == [] || !IsSpace(t[0]) by {
          if t != [] {
            assert t[0] == s[1];
          }
        }
        assert SkipSpaces(s) == t;
        CollapseSpace(s);
      } else {
        CollapseCons(s);
      }
      assert s == [s[0]] + t;
    }
  }

  /** A normal text is a fixed point of `_normalize_text`. */
  lemma NormalIsFixedPoint(s: string)
    requires IsNormal(s)
    ensures Normalize(s) == s
  {
    assert Lower(s) == s;
    assert Scrub(s) == s;
    CollapseFixed(s);
    assert SkipSpaces(s) == s;
    assert StripTrailing(s) == s;
  }

  /** `_normalize_text` is idempotent. */
  lemma NormalizeIdempotent(text: string)
    ensures Normalize(Normalize(text)) == Normalize(text)
  {
    NormalIsFixedPoint(Normalize(text));
  }

  /** The length of the word at the start of `s`. */
  function WordLength(s: string): (n: nat)
    ensures n <= |s|
    ensures forall i :: 0 <= i < n ==> !IsSpace(s[i])
    ensures n == |s| || IsSpace(s[n])
  {
    if s == [] || IsSpace(s[0]) then 0 else 1 + WordLength(s[1..])
  }

  /** `s.split()`: the maximal runs of non-whitespace characters, in order. */
  function Split(s: string): (words: seq<string>)
    ensures forall i :: 0 <= i < |words| ==> IsWord(words[i])
    ensures s != [] && !IsSpace(s[0]) ==> words != []
    decreases |s|
  {
    if s == [] then []
    else if IsSpace(s[0]) then Split(s[1..])
    else
      var n := WordLength(s);
      [s[..n]] + Split(s[n..])
  }

  /** The tokens of a text: `_normalize_text(text).split()`. */
  function Tokens(text: string): (words: seq<string>)
    ensures forall i :: 0 <= i < |words| ==> IsWord(words[i])
    ensures Join(words) == Normalize(text)
  {
    JoinSplit(Normalize(text));
    Split(Normalize(text))
  }

  /** A text has tokens exactly when its normal form is not empty. */
  lemma TokensEmptyIff(text: string)
    ensures Tokens(text) == [] <==> Normalize(text) == []
  {
  }

  /** A word: non-empty and free of whitespace. */
  predicate IsWord(w: string)
  {
    w != [] && forall i :: 0 <= i < |w| ==> !IsSpace(w[i])
  }

  /** `" ".join(words)`. */
  function Join(words: seq<string>): string
  {
    if words == [] then []
    else if |words| == 1 then words[0]
    else words[0] + " " + Join(words[1..])
  }

  /** The first word of `w + t` is `w` when `t` is empty or starts with whitespace. */
  lemma {:induction false} WordLengthOf(w: string, t: string)
    requires forall i :: 0 <= i < |w| ==> !IsSpace(w[i])
    requires t == [] || IsSpace(t[0])
    ensures WordLength(w + t) == |w|
    decreases |w|
  {
    if w == [] {
      assert w + t == t;
    } else {
      WordLengthOf(w[1..], t);
      assert (w + t)[1..] == w[1..] + t;
    }
  }

  /** A word followed by whitespace or nothing is split off first. */
  lemma SplitWord(w: string, t: string)
    requires IsWord(w)
    requires t == [] || IsSpace(t[0])
    ensures Split(w + t) == [w] + Split(t)
  {
    WordLengthOf(w, t);
    assert (w + t)[..|w|] == w;
    assert (w + t)[|w|..] == t;
  }

  /** Leading whitespace does not change the words. */
  lemma SplitSpace(c: char, t: string)
    requires IsSpace(c)
    ensures Split([c] + t) == Split(t)
  {
    assert ([c] + t)[1..] == t;
  }

  /** `lstrip` keeps the words. */
  lemma {:induction false} SplitSkipSpaces(s: string)
    ensures Split(SkipSpaces(s)) == Split(s)
    decreases |s|
  {
    if s != [] && IsSpace(s[0]) {
      SplitSkipSpaces(s[1..]);
    }
  }

  /** Trailing whitespace does not change the words. */
  lemma {:induction false} SplitSnocSpace(s: string, c: char)
    requires IsSpace(c)
    ensures Split(s + [c]) == Split(s)
    decreases |s|
  {
    if s == [] {
      SplitSpace(c, []);
      assert [c] + [] == s + [c];
    } else if IsSpace(s[0]) {
      SplitSnocSpace(s[1..], c);
      assert (s + [c])[1..] == s[1..] + [c];
    } else {
      var n := WordLength(s);
      var w, t := s[..n], s[n..];
      assert s == w + t;
      assert s + [c] == w + (t + [c]);
      assert (t + [c])[0] == if n < |s| then s[n] else c;
      SplitWord(w, t);
      SplitWord(w, t + [c]);
      SplitSnocSpace(t, c);
    }
  }

  /** `rstrip` keeps the words. */
  lemma {:induction false} SplitStripTrailing(s: string)
    ensures Split(StripTrailing(s)) == Split(s)
    decreases |s|
  {
    if s != [] && IsSpace(s[|s| - 1]) {
      var init := s[..|s| - 1];
      SplitStripTrailing(init);
      SplitSnocSpace(init, s[|s| - 1]);
      assert s == init + [s[|s| - 1]];
    }
  }

  /** A non-space first character is copied by the collapse. */
  lemma CollapseCons(s: string)
    requires s != [] && !IsSpace(s[0])
    ensures Collapse(s) == [s[0]] + Collapse(s[1..])
  {
  }

  /** Collapsing passes over the characters of a word unchanged. */
  lemma {:induction false} CollapseWord(w: string, t: string)
    requires forall i :: 0 <= i < |w| ==> !IsSpace(w[i])
    ensures Collapse(w + t) == w + Collapse(t)
    decreases |w|
  {
    if w == [] {
      assert w + t == t;
    } else {
      var v := w[1..];
      assert forall i :: 0 <= i < |v| ==> !IsSpace(v[i]) by {
        forall i | 0 <= i < |v| ensures !IsSpace(v[i]) {
          assert v[i] == w[i + 1];
        }
      }
      CollapseWord(v, t);
      CollapseConsWord(w, t);
    }
  }

  /** One step of `CollapseWord`: the first character of the word is copied. */
  lemma CollapseConsWord(w: string, t: string)
    requires w != [] && !IsSpace(w[0])
    ensures Collapse(w + t) == [w[0]] + Collapse(w[1..] + t)
    ensures w == [w[0]] + w[1..]
  {
    assert (w + t)[1..] == w[1..] + t;
    CollapseCons(w + t);
  }

  /** A leading run of whitespace collapses to one space. */
  lemma CollapseSpace(s: string)
    requires s != [] && IsSpace(s[0])
    ensures Collapse(s) == [' '] + Collapse(SkipSpaces(s))
  {
  }

  /** A text that starts with a non-space is its first word followed by whitespace or nothing. */
  lemma FirstWord(s: string)
    requires s != [] && !IsSpace(s[0])
    ensures var n := WordLength(s);
      && 0 < n
      && IsWord(s[..n])
      && (s[n..] == [] || IsSpace(s[n..][0]))
      && s == s[..n] + s[n..]
  {
    var n := WordLength(s);
    assert n != 0;
    var w := s[..n];
    forall i | 0 <= i < |w| ensures !IsSpace(w[i]) {
      assert w[i] == s[i];
    }
  }

  /** The collapse of a text split after its first word. */
  lemma CollapseFirstWord(s: string)
    requires s != [] && !IsSpace(s[0])
    ensures var n := WordLength(s);
      && 0 < n
      && IsWord(s[..n])
      && (s[n..] == [] || IsSpace(s[n..][0]))
      && Collapse(s) == s[..n] + Collapse(s[n..])
      && s == s[..n] + s[n..]
  {
    FirstWord(s);
    var n := WordLength(s);
    CollapseWord(s[..n], s[n..]);
  }

  /** Collapsing whitespace keeps the words. */
  lemma {:induction false} SplitCollapse(s: string)
    ensures Split(Collapse(s)) == Split(s)
    decreases |s|
  {
    if s == [] {
    } else if IsSpace(s[0]) {
      var rest := SkipSpaces(s);
      SplitCollapse(rest);
      CollapseSpace(s);
      SplitSpace(' ', Collapse(rest));
      SplitSkipSpaces(s);
    } else {
      var n := WordLength(s);
      var w, t := s[..n], s[n..];
      CollapseFirstWord(s);
      SplitCollapse(t);
      SplitWord(w, Collapse(t));
      SplitWord(w, t);
    }
  }

  /** The collapsed text ends as `s` does: with one space after trailing whitespace, else with the same character. */
  lemma {:induction false} CollapseLast(s: string)
    requires s != []
    ensures Collapse(s) != []
    ensures Collapse(s)[|Collapse(s)| - 1] == if IsSpace(s[|s| - 1]) then ' ' else s[|s| - 1]
    decreases |s|
  {
    if IsSpace(s[0]) {
      var rest := SkipSpaces(s);
      if rest != [] {
        CollapseLast(rest);
        assert rest[|rest| - 1] == s[|s| - 1];
      }
    } else if |s| > 1 {
      CollapseLast(s[1..]);
    }
  }

  /** Splitting a normal text and joining the words with single spaces gives the text back. */
  lemma {:induction false} JoinSplit(s: string)
    requires IsNormal(s)
    ensures Join(Split(s)) == s
    decreases |s|
  {
    if s != [] {
      assert !IsSpace(s[0]) by { assert IsNormChar(s[0]); }
      FirstWord(s);
      var n := WordLength(s);
      var w := s[..n];
      if n == |s| {
        SplitWord(w, []);
      } else {
        var rest := s[n + 1..];
        NormalRest(s, n);
        JoinSplit(rest);
        SplitWord(w, s[n..]);
        SplitSpace(' ', rest);
        JoinCons(w, Split(rest));
      }
    }
  }

  /** After the first word of a normal text that goes on come one space and a normal rest. */
  lemma NormalRest(s: string, n: nat)
    requires IsNormal(s) && n < |s| && IsSpace(s[n])
    ensures n + 1 < |s| && s[n..] == [' '] + s[n + 1..] && s[..n] + " " + s[n + 1..] == s
    ensures IsNormal(s[n + 1..]) && !IsSpace(s[n + 1])
  {
    assert IsNormChar(s[n]) || s[n] == ' ';
    SliceNormBody(s, n + 1, |s|);
    assert IsNormChar(s[n + 1]) by { assert s[n + 1] != ' '; }
  }

  /** Joining a word in front of a non-empty list puts one space between. */
  lemma JoinCons(w: string, words: seq<string>)
    requires words != []
    ensures Join([w] + words) == w + " " + Join(words)
  {
    assert ([w] + words)[1..] == words;
  }

  /** Joining words with single spaces and splitting gives the words back. */
  lemma {:induction false} SplitJoin(words: seq<string>)
    requires forall i :: 0 <= i < |words| ==> IsWord(words[i])
    ensures Split(Join(words)) == words
    decreases |words|
  {
    if |words| == 1 {
      SplitWord(words[0], []);
      assert words[0] + [] == words[0];
    } else if |words| > 1 {
      var rest := Join(words[1..]);
      SplitJoin(words[1..]);
      SplitWord(words[0], " " + rest);
      SplitSpace(' ', rest);
      assert words[0] + " " + rest == words[0] + (" " + rest);
      assert words == [words[0]] + words[1..];
    }
  }

  /** Lower-casing twice is lower-casing once. */
  lemma LowerIdempotent(s: string)
    ensures Lower(Lower(s)) == Lower(s)
  {
    assert forall i :: 0 <= i < |s| ==> ToLower(ToLower(s[i])) == ToLower(s[i]);
  }

  /** Normalisation ignores case. */
  lemma NormalizeIgnoresCase(text: string)
    ensures Normalize(Lower(text)) == Normalize(text)
  {
    LowerIdempotent(text);
  }

  /** Normalisation ignores punctuation: a character other than a letter, digit or whitespace counts as a space. */
  lemma NormalizeIgnoresPunctuation(text: string, i: nat)
    requires i < |text| && !IsAlnum(text[i]) && !IsSpace(text[i])
    ensures Normalize(text[i := ' ']) == Normalize(text)
  {
    var a, b := Scrub(Lower(text[i := ' '])), Scrub(Lower(text));
    forall j | 0 <= j < |text| ensures a[j] == b[j] {
      if j == i {
        assert ToLower(text[i]) == text[i];
      }
    }
    assert a == b;
  }
}
