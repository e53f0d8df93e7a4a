/** `esc`: HTML escaping of user-supplied text as five successive replace-all passes. */
module Html {
  import opened Text

  /** `esc(s)`: `&` first, then `<`, `>`, `"` and `'`. */
  function Esc(s: string): string {
    var s1 := ReplaceAll(s, "&", "&amp;");
    var s2 := ReplaceAll(s1, "<", "&lt;");
    var s3 := ReplaceAll(s2, ">", "&gt;");
    var s4 := ReplaceAll(s3, "\"", "&quot;");
    ReplaceAll(s4, "'", "&#39;")
  }

  /** The entity one character becomes. */
  function EscapeChar(c: char): string {
    match c
    case '&' => "&amp;"
    case '<' => "&lt;"
    case '>' => "&gt;"
    case '"' => "&quot;"
    case '\'' => "&#39;"
    case _ => [c]
  }

  /** Reference definition: every character replaced by its entity in a single pass. */
  function EscapeEach(s: string): string
    decreases |s|
  {
    if s == [] then [] else EscapeChar(s[0]) + EscapeEach(s[1..])
  }

  predicate IsSpecial(c: char) {
    c == '&' || c == '<' || c == '>' || c == '"' || c == '\''
  }

  /** The characters that must not appear raw in escaped output. */
  predicate IsMarkup(c: char) {
    c == '<' || c == '>' || c == '"' || c == '\''
  }

  /** `s` carries none of `<`, `>`, `"` and `'`. */
  predicate MarkupFree(s: string) {
    forall i :: 0 <= i < |s| ==> !IsMarkup(s[i])
  }

  /** One of the five entities `esc` produces begins at index `i` of `s`. */
  predicate EntityAt(s: string, i: nat)
    requires i <= |s|
  {
    var t := s[i..];
    StartsWith(t, "&amp;") || StartsWith(t, "&lt;") || StartsWith(t, "&gt;")
    || StartsWith(t, "&quot;") || StartsWith(t, "&#39;")
  }

  /** Every `&` in `s` begins one of the five entities. */
  predicate AmpersandsOpenEntities(s: string) {
    forall i :: 0 <= i < |s| && s[i] == '&' ==> EntityAt(s, i)
  }

  /** Reverses `esc`: each of the five entities back to its character, everything else kept. */
  function Unescape(s: string): string
    decreases |s|
  {
    if s == [] then []
    else if StartsWith(s, "&amp;") then "&" + Unescape(s[5..])
    else if StartsWith(s, "&lt;") then "<" + Unescape(s[4..])
    else if StartsWith(s, "&gt;") then ">" + Unescape(s[4..])
    else if StartsWith(s, "&quot;") then "\"" + Unescape(s[6..])
    else if StartsWith(s, "&#39;") then "'" + Unescape(s[5..])
    else [s[0]] + Unescape(s[1..])
  }

  /** A single-character pass leaves a text without that character as it is. */
  lemma ReplaceCharAbsent(s: string, c: char, rep: string)
    requires c !in s
    ensures ReplaceAll(s, [c], rep) == s
  {
    forall j | 0 <= j <= |s| ensures !MatchAt(s, [c], j) {
      if j + 1 <= |s| {
        assert s[j..j + 1] == [s[j]];
      }
    }
    ReplaceAllAbsent(s, [c], rep);
  }

  /** A single-character pass over a single character. */
  lemma OnePass(c: char, d: char, rep: string)
    ensures ReplaceAll([c], [d], rep) == if c == d then rep else [c]
  {
    assert [c][..1] == [c];
    assert [c][1..] == [];
  }

  /** A later pass, for one of `<`, `>`, `"` and `'`, leaves an entity as it is. */
  lemma EntityPass(c: char, d: char, rep: string)
    requires IsSpecial(c) && IsMarkup(d)
    ensures ReplaceAll(EscapeChar(c), [d], rep) == EscapeChar(c)
  {
    ReplaceCharAbsent(EscapeChar(c), d, rep);
  }

  /** The five passes applied to one character give its entity. */
  lemma EscOneChar(c: char)
    ensures Esc([c]) == EscapeChar(c)
  {
    OnePass(c, '&', "&amp;");
    if c == '&' {
      EntityPass(c, '<', "&lt;");
      EntityPass(c, '>', "&gt;");
      EntityPass(c, '"', "&quot;");
      EntityPass(c, '\'', "&#39;");
      return;
    }
    OnePass(c, '<', "&lt;");
    if c == '<' {
      EntityPass(c, '>', "&gt;");
      EntityPass(c, '"', "&quot;");
      EntityPass(c, '\'', "&#39;");
      return;
    }
    OnePass(c, '>', "&gt;");
    if c == '>' {
      EntityPass(c, '"', "&quot;");
      EntityPass(c, '\'', "&#39;");
      return;
    }
    OnePass(c, '"', "&quot;");
    if c == '"' {
      EntityPass(c, '\'', "&#39;");
      return;
    }
    OnePass(c, '\'', "&#39;");
  }

  /** `esc` of a concatenation is the concatenation of the escaped parts. */
  lemma EscSplits(a: string, b: string)
    ensures Esc(a + b) == Esc(a) + Esc(b)
  {
    ReplaceCharSplits(a, b, '&', "&amp;");
    var a1, b1 := ReplaceAll(a, "&", "&amp;"), ReplaceAll(b, "&", "&amp;");
    ReplaceCharSplits(a1, b1, '<', "&lt;");
    var a2, b2 := ReplaceAll(a1, "<", "&lt;"), ReplaceAll(b1, "<", "&lt;");
    ReplaceCharSplits(a2, b2, '>', "&gt;");
    var a3, b3 := ReplaceAll(a2, ">", "&gt;"), ReplaceAll(b2, ">", "&gt;");
    ReplaceCharSplits(a3, b3, '"', "&quot;");
    var a4, b4 := ReplaceAll(a3, "\"", "&quot;"), ReplaceAll(b3, "\"", "&quot;");
    ReplaceCharSplits(a4, b4, '\'', "&#39;");
  }

  /**
   * The five successive passes equal one pass that replaces every character
   * by its entity: because `&` goes first, no entity is escaped twice.
   */
  lemma {:induction false} EscIsPerCharacter(s: string)
    ensures Esc(s) == EscapeEach(s)
    decreases |s|
  {
    if s != [] {
      assert s == [s[0]] + s[1..];
      EscSplits([s[0]], s[1..]);
      EscOneChar(s[0]);
      EscIsPerCharacter(s[1..]);
    }
  }

  /** The escaped text holds no raw `<`, `>`, `"` or `'`. */
  lemma {:induction false} EscapeEachMarkupFree(s: string)
    ensures MarkupFree(EscapeEach(s))
    decreases |s|
  {
    if s != [] {
      EscapeEachMarkupFree(s[1..]);
      var e, rest := EscapeChar(s[0]), EscapeEach(s[1..]);
      forall i | 0 <= i < |e + rest| ensures !IsMarkup((e + rest)[i]) {
        if i >= |e| { assert (e + rest)[i] == rest[i - |e|]; }
      }
    }
  }

  /** Inside the entity of one character, an `&` can only be its first position, where the entity begins. */
  lemma EntityFirst(c: char, rest: string, i: nat)
    requires i < |EscapeChar(c)| && (EscapeChar(c) + rest)[i] == '&'
    ensures EntityAt(EscapeChar(c) + rest, i)
  {
    var e := EscapeChar(c);
    var r := e + rest;
    assert r[i] == e[i];
    assert i == 0;
    assert r[0..] == r;
    assert r[..|e|] == e;
  }

  /** An entity in the second part of a concatenation is an entity of the whole. */
  lemma EntityShift(e: string, rest: string, k: nat)
    requires k <= |rest| && EntityAt(rest, k)
    ensures EntityAt(e + rest, |e| + k)
  {
    assert (e + rest)[|e| + k..] == rest[k..];
  }

  /** Every `&` in the escaped text begins one of the five entities. */
  lemma {:induction false} EscapeEachAmpersands(s: string)
    ensures AmpersandsOpenEntities(EscapeEach(s))
    decreases |s|
  {
    if s != [] {
      EscapeEachAmpersands(s[1..]);
      var e, rest := EscapeChar(s[0]), EscapeEach(s[1..]);
      var r := e + rest;
      forall i | 0 <= i < |r| && r[i] == '&' ensures EntityAt(r, i) {
        if i >= |e| {
          assert r[i] == rest[i - |e|];
          assert AmpersandsOpenEntities(rest);
          EntityShift(e, rest, i - |e|);
        } else {
          EntityFirst(s[0], rest, i);
        }
      }
    }
  }

  /** `esc(s)` contains no `<`, `>`, `"` or `'`, and each `&` in it starts an entity. */
  lemma EscOutput(s: string)
    ensures MarkupFree(Esc(s))
    ensures AmpersandsOpenEntities(Esc(s))
  {
    EscIsPerCharacter(s);
    EscapeEachMarkupFree(s);
    EscapeEachAmpersands(s);
  }

  /** Unescaping reads an entity at the front back as its character. */
  lemma UnescapeEntity(c: char, rest: string)
    requires IsSpecial(c)
    ensures Unescape(EscapeChar(c) + rest) == [c] + Unescape(rest)
  {
    var e := EscapeChar(c);
    var r := e + rest;
    assert r[..|e|] == e;
    assert r[|e|..] == rest;
    assert StartsWith(r, e);
    if c != '&' {
      assert !StartsWith(r, "&amp;") by { assert r[1] == e[1] != 'a'; }
      if c != '<' {
        assert !StartsWith(r, "&lt;") by { assert r[1] == e[1] != 'l'; }
        if c != '>' {
          assert !StartsWith(r, "&gt;") by { assert r[1] == e[1] != 'g'; }
          if c != '"' {
            assert !StartsWith(r, "&quot;") by { assert r[1] == e[1] != 'q'; }
          }
        }
      }
    }
  }

  /** Unescaping passes any other character through. */
  lemma UnescapePlain(c: char, rest: string)
    requires !IsSpecial(c)
    ensures Unescape([c] + rest) == [c] + Unescape(rest)
  {
    var r := [c] + rest;
    assert r[0] == c && r[1..] == rest;
    forall p: string | p != [] && StartsWith(r, p) ensures p[0] == c {
      assert r[..|p|][0] == p[0];
    }
  }

  /** Unescaping the escaped text gives the original back, so `esc` loses nothing. */
  lemma {:induction false} UnescapeEscapeEach(s: string)
    ensures Unescape(EscapeEach(s)) == s
    decreases |s|
  {
    if s != [] {
      UnescapeEscapeEach(s[1..]);
      var rest := EscapeEach(s[1..]);
      assert EscapeEach(s) == EscapeChar(s[0]) + rest;
      if IsSpecial(s[0]) {
        UnescapeEntity(s[0], rest);
      } else {
        UnescapePlain(s[0], rest);
        assert EscapeChar(s[0]) == [s[0]];
      }
      assert [s[0]] + s[1..] == s;
    }
  }

  /** `esc` is injective: distinct texts stay distinct once escaped. */
  lemma EscInjective(s: string, t: string)
    requires Esc(s) == Esc(t)
    ensures s == t
  {
    EscIsPerCharacter(s);
    EscIsPerCharacter(t);
    UnescapeEscapeEach(s);
    UnescapeEscapeEach(t);
  }

  /** A text without any of the five special characters is left unchanged. */
  lemma {:induction false} EscIdentity(s: string)
    requires forall i :: 0 <= i < |s| ==> !IsSpecial(s[i])
    ensures Esc(s) == s
  {
    EscIsPerCharacter(s);
    EscapeEachIdentity(s);
  }

  lemma {:induction false} EscapeEachIdentity(s: string)
    requires forall i :: 0 <= i < |s| ==> !IsSpecial(s[i])
    ensures EscapeEach(s) == s
    decreases |s|
  {
    if s != [] {
      EscapeEachIdentity(s[1..]);
      assert [s[0]] + s[1..] == s;
    }
  }

  /** Escaping never shortens a text, and lengthens every text that holds a special character. */
  lemma {:induction false} EscapeEachLonger(s: string)
    ensures |EscapeEach(s)| >= |s|
    ensures (exists i :: 0 <= i < |s| && IsSpecial(s[i])) ==> |EscapeEach(s)| > |s|
    decreases |s|
  {
    if s != [] {
      EscapeEachLonger(s[1..]);
      if exists i :: 0 <= i < |s| && IsSpecial(s[i]) {
        var i :| 0 <= i < |s| && IsSpecial(s[i]);
        if i > 0 {
          assert IsSpecial(s[1..][i - 1]);
        }
      }
    }
  }

  /**
   * Existing entities are not recognised: an `&` is escaped wherever it
   * stands, so `esc("&amp;")` is `"&amp;amp;"`.
   */
  lemma EscAmpersandFirst(s: string)
    ensures Esc("&" + s) == "&amp;" + Esc(s)
  {
    EscSplits("&", s);
    EscOneChar('&');
  }

  /**
   * `esc` changes every text holding one of the five special characters,
   * so escaping twice differs from escaping once.
   */
  lemma EscNotIdempotent(s: string)
    requires exists i :: 0 <= i < |s| && IsSpecial(s[i])
    ensures Esc(s) != s
    ensures Esc(Esc(s)) != Esc(s)
  {
    EscIsPerCharacter(s);
    EscapeEachLonger(s);
    if Esc(Esc(s)) == Esc(s) {
      EscInjective(Esc(s), s);
    }
  }
}
