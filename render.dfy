/** `render_html`: literal `{{key}}` substitution, one key at a time, in the order of the mapping. */
module Templates {
  import opened Text

  /** The token `{{key}}`. */
  function Placeholder(key: string): string {
    "{{" + key + "}}"
  }

  /** Reference definition: substitute the first key everywhere, then render the rest. */
  function Render(template: string, data: seq<(string, string)>): string
    decreases |data|
  {
    if data == [] then template
    else Render(ReplaceAll(template, Placeholder(data[0].0), data[0].1), data[1..])
  }

  /** `render_html(template, data)`, with the mapping in its insertion order. */
  method RenderHtml(template: string, data: seq<(string, string)>) returns (out: string)
    ensures out == Render(template, data)
  {
    out := template;
    var i := 0;
    while i < |data|
      invariant 0 <= i <= |data|
      invariant Render(out, data[i..]) == Render(template, data)
    {
      var (k, v) := data[i];
      out := ReplaceAll(out, "{{" + k + "}}", v);
      i := i + 1;
    }
  }

  /** A template in which no `{{key}}` of the mapping occurs comes back unchanged. */
  lemma {:induction false} RenderWithoutPlaceholders(template: string, data: seq<(string, string)>)
    requires forall i :: 0 <= i < |data| ==> !Occurs(Placeholder(data[i].0), template)
    ensures Render(template, data) == template
    decreases |data|
  {
    if data != [] {
      ReplaceAllAbsent(template, Placeholder(data[0].0), data[0].1);
      RenderWithoutPlaceholders(template, data[1..]);
    }
  }

  /** A name with no `{` or `}` in it. */
  predicate BraceFree(s: string) {
    forall i :: 0 <= i < |s| ==> s[i] != '{' && s[i] != '}'
  }

  /** Where the braces of `{{key}}` are when `key` holds none. */
  lemma PlaceholderBraces(key: string)
    requires BraceFree(key)
    ensures var p := Placeholder(key);
      && |p| == |key| + 4
      && p[0] == '{' && p[1] == '{' && p[|key| + 2] == '}' && p[|key| + 3] == '}'
      && (forall i :: 2 <= i < |p| ==> p[i] != '{')
      && (forall i :: 0 <= i < |key| + 2 ==> p[i] != '}')
      && p[2..|key| + 2] == key
  {
    var p := Placeholder(key);
    forall i | 2 <= i < |key| + 2 ensures p[i] == key[i - 2] {
    }
  }

  /** One differing character rules out a match at `j`. */
  lemma Mismatch(s: string, pat: string, j: nat, o: nat)
    requires o < |pat| && j + o < |s| && s[j + o] != pat[o]
    ensures !MatchAt(s, pat, j)
  {
    if j + |pat| <= |s| {
      assert s[j..j + |pat|][o] == s[j + o];
    }
  }

  /** No `{{key}}` can begin inside the text before a placeholder and run into it. */
  lemma NoMatchIntoPlaceholder(a: string, name: string, b: string, key: string)
    requires BraceFree(key) && BraceFree(name)
    ensures forall j :: 0 <= j < |a| < j + |Placeholder(key)| ==> !MatchAt(a + (Placeholder(name) + b), Placeholder(key), j)
  {
    var s := a + (Placeholder(name) + b);
    var pk := Placeholder(key);
    PlaceholderBraces(key);
    PlaceholderBraces(name);
    assert s[|a|] == '{' && s[|a| + 1] == '{';
    forall j | 0 <= j < |a| < j + |pk| ensures !MatchAt(s, pk, j) {
      var o := |a| - j;
      if o >= 2 {
        Mismatch(s, pk, j, o);
      } else {
        Mismatch(s, pk, j, 2);
      }
    }
  }

  /** No `{{key}}` can begin inside `{{name}}` and run past its end. */
  lemma NoMatchOutOfPlaceholder(name: string, b: string, key: string)
    requires BraceFree(key) && BraceFree(name)
    ensures forall j :: 0 <= j < |Placeholder(name)| < j + |Placeholder(key)| ==> !MatchAt(Placeholder(name) + b, Placeholder(key), j)
  {
    var pn, pk := Placeholder(name), Placeholder(key);
    var s := pn + b;
    PlaceholderBraces(key);
    PlaceholderBraces(name);
    forall j | 0 <= j < |pn| < j + |pk| ensures !MatchAt(s, pk, j) {
      if j >= 2 {
        assert s[j] == pn[j];
        Mismatch(s, pk, j, 0);
      } else if j == 1 {
        assert s[2] == pn[2];
        Mismatch(s, pk, j, 1);
      } else {
        assert s[|name| + 2] == pn[|name| + 2];
        assert pk[|name| + 2] == key[|name|];
        Mismatch(s, pk, j, |name| + 2);
      }
    }
  }

  /** `{{key}}` does not occur in `{{name}}` for a different brace-free name. */
  lemma NoMatchInPlaceholder(name: string, key: string)
    requires BraceFree(key) && BraceFree(name) && key != name
    ensures !Occurs(Placeholder(key), Placeholder(name))
  {
    var pn, pk := Placeholder(name), Placeholder(key);
    PlaceholderBraces(key);
    PlaceholderBraces(name);
    forall j | 0 <= j <= |pn| ensures !MatchAt(pn, pk, j) {
      if j + |pk| <= |pn| {
        if j >= 1 {
          Mismatch(pn, pk, j, 1);
        } else if |key| < |name| {
          assert pn[|key| + 2] == name[|key|];
          Mismatch(pn, pk, j, |key| + 2);
        } else {
          assert |key| == |name|;
          var i :| 0 <= i < |key| && key[i] != name[i];
          assert pk[i + 2] == key[i] && pn[i + 2] == name[i];
          Mismatch(pn, pk, j, i + 2);
        }
      }
    }
  }

  /** Substituting one key keeps every occurrence of another brace-free name's placeholder. */
  lemma ReplaceKeepsPlaceholder(s: string, key: string, value: string, name: string)
    requires BraceFree(key) && BraceFree(name) && key != name
    requires Occurs(Placeholder(name), s)
    ensures Occurs(Placeholder(name), ReplaceAll(s, Placeholder(key), value))
  {
    var pn, pk := Placeholder(name), Placeholder(key);
    var j :| 0 <= j <= |s| && MatchAt(s, pn, j);
    var a, b := s[..j], s[j + |pn|..];
    assert s == a + (pn + b);
    NoMatchIntoPlaceholder(a, name, b, key);
    ReplaceAllSplits(a, pn + b, pk, value);
    NoMatchOutOfPlaceholder(name, b, key);
    ReplaceAllSplits(pn, b, pk, value);
    NoMatchInPlaceholder(name, key);
    ReplaceAllAbsent(pn, pk, value);
    var ra := ReplaceAll(a, pk, value);
    var r := ReplaceAll(s, pk, value);
    assert r == ra + pn + ReplaceAll(b, pk, value);
    assert r[|ra|..|ra| + |pn|] == pn;
    assert MatchAt(r, pn, |ra|);
  }

  /**
   * A placeholder whose brace-free name is not a key of the mapping is still
   * in the rendered text, whatever the substituted values contain, provided
   * the keys are brace-free too.
   */
  lemma {:induction false} RenderKeepsUnknownPlaceholder(template: string, data: seq<(string, string)>, name: string)
    requires BraceFree(name)
    requires forall i :: 0 <= i < |data| ==> BraceFree(data[i].0) && data[i].0 != name
    requires Occurs(Placeholder(name), template)
    ensures Occurs(Placeholder(name), Render(template, data))
    decreases |data|
  {
    if data != [] {
      ReplaceKeepsPlaceholder(template, data[0].0, data[0].1, name);
      RenderKeepsUnknownPlaceholder(ReplaceAll(template, Placeholder(data[0].0), data[0].1), data[1..], name);
    }
  }
}
