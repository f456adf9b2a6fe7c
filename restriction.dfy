/**
 * The `Restriction` value of the blacklist: a rule text and its type, Java
 * equality and hashing on it, the pattern compiled from it and the test of a
 * message against that pattern.
 */
module Restrictions {
  import opened JavaLang

  /** The three types of restriction. */
  datatype Kind = Content | Word | Regex

  /** A blacklist rule. Java equality (text and type) is datatype equality. */
  datatype Restriction = Restriction(text: string, kind: Kind)

  // ---------------------------------------------------------------------------
  // equals / hashCode
  // ---------------------------------------------------------------------------

  /** `equals`: same text and same type. */
  function Equals(a: Restriction, b: Restriction): (r: bool)
    ensures r <==> a == b
  {
    a.text == b.text && a.kind == b.kind
  }

  /** `31` to the power `e`. */
  function Pow31(e: nat): nat
  {
    if e == 0 then 1 else 31 * Pow31(e - 1)
  }

  /** The polynomial the `String.hashCode` documentation gives:
      s[0]*31^(n-1) + s[1]*31^(n-2) + ... + s[n-1], before `int` overflow. */
  function HashPolynomial(s: string): int
  {
    if s == [] then 0 else (s[0] as int) * Pow31(|s| - 1) + HashPolynomial(s[1..])
  }

  /** Appending a character multiplies the polynomial by 31 and adds it. */
  lemma {:induction false} HashPolynomialSnoc(s: string, c: char)
    ensures HashPolynomial(s + [c]) == 31 * HashPolynomial(s) + c as int
  {
    if s != [] {
      assert (s + [c])[0] == s[0];
      assert (s + [c])[1..] == s[1..] + [c];
      HashPolynomialSnoc(s[1..], c);
      assert (s[0] as int) * Pow31(|s|) == 31 * ((s[0] as int) * Pow31(|s| - 1));
    }
  }

  /** Java's `String.hashCode`, computed as the source's runtime does
      (h = 31 * h + c over the characters, in `int` arithmetic): the
      documented polynomial wrapped into the `int` range. */
  function StringHash(s: string): (h: Int32)
    ensures h == Wrap32(HashPolynomial(s))
  {
    if s == [] then 0
    else
      var init, c := s[..|s| - 1], s[|s| - 1];
      assert s == init + [c];
      HashPolynomialSnoc(init, c);
      Wrap32MulAdd(HashPolynomial(init), 31, c as int);
      Wrap32(31 * StringHash(init) + c as int)
  }

  /** `hashCode`: the hash of the text alone; the type does not take part. */
  function HashCode(r: Restriction): (h: Int32)
    ensures h == Wrap32(HashPolynomial(r.text))
  {
    StringHash(r.text)
  }

  /** The hash of "ab" is 97 * 31 + 98. */
  lemma HashExample()
    ensures HashCode(Restriction("ab", Content)) == 3105
  {
    assert "ab"[..1] == "a";
  }

  /** The Java contract between `equals` and `hashCode`, and the fact that the
      hash does not look at the type. */
  lemma HashConsistentWithEquals(a: Restriction, b: Restriction)
    ensures Equals(a, b) ==> HashCode(a) == HashCode(b)
    ensures a.text == b.text ==> HashCode(a) == HashCode(b)
  {
  }

  /** Restrictions that differ only in type are different elements of a set
      even though they share a hash bucket. */
  lemma SameTextOtherKindDistinct(t: string, k1: Kind, k2: Kind)
    requires k1 != k2
    ensures !Equals(Restriction(t, k1), Restriction(t, k2))
    ensures HashCode(Restriction(t, k1)) == HashCode(Restriction(t, k2))
    ensures |{Restriction(t, k1), Restriction(t, k2)}| == 2
  {
  }

  // ---------------------------------------------------------------------------
  // Characters
  // ---------------------------------------------------------------------------

  /** Java's default `\s` class: space, \t, \n, \x0B, \f, \r. */
  predicate IsJavaSpace(c: char)
  {
    c == ' ' || c == '\t' || c == '\n' || c == '\r' || c as int == 0x0B || c as int == 0x0C
  }

  /** Case folding for case-insensitive matching, on ASCII letters. */
  function Fold(c: char): char
  {
    if 'A' <= c <= 'Z' then (c as int + 32) as char else c
  }

  lemma FoldIdempotent(c: char)
    ensures Fold(Fold(c)) == Fold(c)
    ensures IsJavaSpace(Fold(c)) == IsJavaSpace(c)
  {
  }

  /** ASCII letters to lower case, as `toLowerCase` does on ASCII text. */
  function FoldStr(s: string): (r: string)
    ensures |r| == |s|
  {
    seq(|s|, k requires 0 <= k < |s| => Fold(s[k]))
  }

  // ---------------------------------------------------------------------------
  // makePattern / test
  // ---------------------------------------------------------------------------

  /** What `makePattern` compiles: the quoted text with the case-insensitive
      flags (CONTENT), the quoted text between `(?:\A|\s)` and `(?:\z|\s)`
      with the same flags (WORD), or the text itself as a regular expression
      (REGEX). */
  datatype Pattern = Literal(literal: string) | Bounded(word: string) | UserRegex(regex: string)

  function MakePattern(text: string, kind: Kind): (p: Pattern)
    ensures kind == Content <==> p == Literal(text)
    ensures kind == Word <==> p == Bounded(text)
    ensures kind == Regex <==> p == UserRegex(text)
  {
    match kind
    case Content => Literal(text)
    case Word => Bounded(text)
    case Regex => UserRegex(text)
  }

  /** The quoted text matches the message at position `i`, ignoring case. */
  predicate MatchesAt(message: string, text: string, i: int)
    requires 0 <= i && i + |text| <= |message|
  {
    forall k | 0 <= k < |text| :: Fold(message[i + k]) == Fold(text[k])
  }

  /** Position `i` is preceded by the start of the message or by whitespace,
      and position `j` is the end of the message or whitespace. */
  predicate BoundedAt(message: string, i: int, j: int)
    requires 0 <= i <= j <= |message|
  {
    (i == 0 || IsJavaSpace(message[i - 1])) && (j == |message| || IsJavaSpace(message[j]))
  }

  /** `Matcher.find`: some part of the message matches the pattern. A REGEX
      pattern is decided by `regexFind(regex, message)`, which stands for
      Java's regular-expression engine. */
  predicate Find(p: Pattern, message: string, regexFind: (string, string) -> bool)
  {
    match p
    case Literal(t) =>
      exists i | 0 <= i <= |message| - |t| :: MatchesAt(message, t, i)
    case Bounded(t) =>
      exists i | 0 <= i <= |message| - |t| :: MatchesAt(message, t, i) && BoundedAt(message, i, i + |t|)
    case UserRegex(rx) => regexFind(rx, message)
  }

  /** `test`: the compiled pattern finds a match in the message. A REGEX
      restriction is the engine's answer; a CONTENT or WORD one holds exactly
      when the text occurs at some position up to case, a WORD one also
      needing whitespace or an end of the message on both sides. */
  function Test(r: Restriction, message: string, regexFind: (string, string) -> bool): (b: bool)
    ensures r.kind == Regex ==> (b <==> regexFind(r.text, message))
    ensures r.kind != Regex ==>
      (b <==> exists i | 0 <= i <= |message| - |r.text| ::
                MatchesAt(message, r.text, i) && (r.kind == Word ==> BoundedAt(message, i, i + |r.text|)))
  {
    Find(MakePattern(r.text, r.kind), message, regexFind)
  }

  // ---------------------------------------------------------------------------
  // What the types promise, stated on decompositions of the message
  // ---------------------------------------------------------------------------

  /** CONTENT: the text occurs anywhere in the message, ignoring case. */
  ghost predicate OccursIgnoringCase(message: string, text: string)
  {
    exists a, w, b :: message == a + w + b && FoldStr(w) == FoldStr(text)
  }

  /** The message splits as `a + w + b` with `w` the text up to case, `a`
      empty or ending in whitespace and `b` empty or starting with it. */
  ghost predicate WordSplitAs(message: string, text: string, a: string, w: string, b: string)
  {
    message == a + w + b && FoldStr(w) == FoldStr(text)
    && (a == [] || IsJavaSpace(a[|a| - 1])) && (b == [] || IsJavaSpace(b[0]))
  }

  /** WORD: the text occurs preceded by whitespace or the start of the
      message, and followed by whitespace or the end of the message. */
  ghost predicate OccursAsWord(message: string, text: string)
  {
    exists a, w, b :: WordSplitAs(message, text, a, w, b)
  }

  /** The part of `message` at `i` spells `text` up to case. */
  lemma SliceMatches(message: string, text: string, i: int)
    requires 0 <= i && i + |text| <= |message|
    ensures MatchesAt(message, text, i) <==> FoldStr(message[i..i + |text|]) == FoldStr(text)
  {
    var w := message[i..i + |text|];
    if MatchesAt(message, text, i) {
      forall k | 0 <= k < |text| ensures FoldStr(w)[k] == FoldStr(text)[k] {
        assert w[k] == message[i + k];
      }
    }
    if FoldStr(w) == FoldStr(text) {
      forall k | 0 <= k < |text| ensures Fold(message[i + k]) == Fold(text[k]) {
        assert w[k] == message[i + k];
        assert FoldStr(w)[k] == FoldStr(text)[k];
      }
    }
  }

  /** A CONTENT restriction matches exactly the messages that contain its
      text, ignoring case. */
  lemma TestContent(text: string, message: string, regexFind: (string, string) -> bool)
    ensures Test(Restriction(text, Content), message, regexFind) <==> OccursIgnoringCase(message, text)
  {
    if Test(Restriction(text, Content), message, regexFind) {
      var i :| 0 <= i <= |message| - |text| && MatchesAt(message, text, i);
      SliceMatches(message, text, i);
      var a, w, b := message[..i], message[i..i + |text|], message[i + |text|..];
      assert message == a + w + b;
    }
    if OccursIgnoringCase(message, text) {
      var a, w, b :| message == a + w + b && FoldStr(w) == FoldStr(text);
      var i := |a|;
      assert message[i..i + |text|] == w;
      SliceMatches(message, text, i);
      assert MatchesAt(message, text, i);
    }
  }

  /** A WORD restriction matches exactly the messages that contain its text
      as a whitespace-delimited word, ignoring case. */
  lemma TestWord(text: string, message: string, regexFind: (string, string) -> bool)
    ensures Test(Restriction(text, Word), message, regexFind) <==> OccursAsWord(message, text)
  {
    if Test(Restriction(text, Word), message, regexFind) {
      var i :| 0 <= i <= |message| - |text| && MatchesAt(message, text, i) && BoundedAt(message, i, i + |text|);
      WordAt(message, text, i);
    }
    if OccursAsWord(message, text) {
      var a, w, b :| WordSplitAs(message, text, a, w, b);
      WordSplit(message, text, a, w, b, regexFind);
    }
  }

  lemma WordAt(message: string, text: string, i: int)
    requires 0 <= i <= |message| - |text|
    requires MatchesAt(message, text, i) && BoundedAt(message, i, i + |text|)
    ensures OccursAsWord(message, text)
  {
    SliceMatches(message, text, i);
    var a, w, b := message[..i], message[i..i + |text|], message[i + |text|..];
    assert a + w == message[..i + |text|];
    assert message == a + w + b;
    if a != [] {
      assert a[|a| - 1] == message[i - 1];
    }
    if b != [] {
      assert b[0] == message[i + |text|];
    }
    assert WordSplitAs(message, text, a, w, b);
  }

  lemma WordSplit(message: string, text: string, a: string, w: string, b: string,
                  regexFind: (string, string) -> bool)
    requires WordSplitAs(message, text, a, w, b)
    ensures Test(Restriction(text, Word), message, regexFind)
  {
    var i := |a|;
    assert message[i..i + |text|] == w;
    SliceMatches(message, text, i);
    assert a != [] ==> a[|a| - 1] == message[i - 1];
    assert b != [] ==> b[0] == message[i + |text|];
    assert MatchesAt(message, text, i) && BoundedAt(message, i, i + |text|);
  }

  /** A REGEX restriction defers to the regular-expression engine. */
  lemma TestRegex(text: string, message: string, regexFind: (string, string) -> bool)
    ensures Test(Restriction(text, Regex), message, regexFind) == regexFind(text, message)
  {
  }

  /** Every message a WORD restriction matches is matched by the CONTENT
      restriction with the same text. */
  lemma WordImpliesContent(text: string, message: string, regexFind: (string, string) -> bool)
    ensures Test(Restriction(text, Word), message, regexFind) ==> Test(Restriction(text, Content), message, regexFind)
  {
  }

  /** A CONTENT match survives any text added around the message. */
  lemma ContentSurvivesExtension(text: string, before: string, message: string, after: string,
                                 regexFind: (string, string) -> bool)
    ensures Test(Restriction(text, Content), message, regexFind)
        ==> Test(Restriction(text, Content), before + message + after, regexFind)
  {
    if Test(Restriction(text, Content), message, regexFind) {
      var i :| 0 <= i <= |message| - |text| && MatchesAt(message, text, i);
      var m' := before + message + after;
      var j := |before| + i;
      forall k | 0 <= k < |text| ensures Fold(m'[j + k]) == Fold(text[k]) {
        assert m'[j + k] == message[i + k];
      }
      assert MatchesAt(m', text, j);
    }
  }

  /** Changing the case of ASCII letters in the message does not change what a
      CONTENT or WORD restriction finds. */
  lemma TestIgnoresCase(r: Restriction, message: string, regexFind: (string, string) -> bool)
    requires r.kind != Regex
    ensures Test(r, FoldStr(message), regexFind) == Test(r, message, regexFind)
  {
    var f := FoldStr(message);
    forall i | 0 <= i <= |message| - |r.text|
      ensures MatchesAt(f, r.text, i) == MatchesAt(message, r.text, i)
      ensures BoundedAt(f, i, i + |r.text|) == BoundedAt(message, i, i + |r.text|)
    {
      forall j | i <= j < i + |r.text| ensures Fold(f[j]) == Fold(message[j]) {
        FoldIdempotent(message[j]);
      }
      assert i > 0 ==> IsJavaSpace(f[i - 1]) == IsJavaSpace(message[i - 1]);
      assert i + |r.text| < |message| ==> IsJavaSpace(f[i + |r.text|]) == IsJavaSpace(message[i + |r.text|]);
    }
  }

  /** "cat" as CONTENT is found inside "concatenate"; as WORD it is not. */
  lemma InsideWordExamples(regexFind: (string, string) -> bool)
    ensures Test(Restriction("cat", Content), "concatenate", regexFind)
    ensures !Test(Restriction("cat", Word), "concatenate", regexFind)
  {
    assert MatchesAt("concatenate", "cat", 3);
    var m := "concatenate";
    forall i | 0 <= i <= |m| - 3
      ensures !(MatchesAt(m, "cat", i) && BoundedAt(m, i, i + 3))
    {
      if i != 3 {
        assert [Fold(m[i]), Fold(m[i + 1]), Fold(m[i + 2])] != "cat";
      } else {
        assert !IsJavaSpace(m[2]);
      }
    }
  }

  /** "cat" as WORD is found in "I have a CAT" but not in "I have a CAT.",
      where a full stop and not whitespace follows it. */
  lemma WordEndExamples(regexFind: (string, string) -> bool)
    ensures Test(Restriction("cat", Word), "I have a CAT", regexFind)
    ensures !Test(Restriction("cat", Word), "I have a CAT.", regexFind)
  {
    assert MatchesAt("I have a CAT", "cat", 9);
    var n := "I have a CAT.";
    forall i | 0 <= i <= |n| - 3
      ensures !(MatchesAt(n, "cat", i) && BoundedAt(n, i, i + 3))
    {
      if i != 9 {
        assert [Fold(n[i]), Fold(n[i + 1]), Fold(n[i + 2])] != "cat";
      } else {
        assert !IsJavaSpace(n[12]);
      }
    }
  }
}
