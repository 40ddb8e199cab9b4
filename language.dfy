/**
 * The language context: the chosen language, adopted from the saved choice
 * when that is a known language, and `t`, which looks a dotted key up in the
 * translation tree of that language and fills in `{word}` placeholders.
 */
module Language {
  import opened Wrappers
  import JsText

  datatype Lang = Vi | En

  /** A translation tree: a string, an object of named subtrees, or any other JSON value. */
  datatype TValue = Text(s: string) | Node(children: map<string, TValue>) | OtherValue

  /** A parameter of `t`: a string or a number. */
  datatype Param = StrParam(s: string) | NumParam(n: int)

  function ParamString(p: Param): string {
    match p
    case StrParam(s) => s
    case NumParam(n) => JsText.IntToString(n)
  }

  /** The value reached by following `keys` from `v`, or `None` at the first key that is missing. */
  function Walk(v: TValue, keys: seq<string>): Option<TValue>
    decreases |keys|
  {
    if keys == [] then Some(v)
    else if v.Node? && keys[0] in v.children then Walk(v.children[keys[0]], keys[1..])
    else None
  }

  /** `\w` of a JavaScript regular expression. */
  predicate IsWordChar(c: char) {
    ('a' <= c <= 'z') || ('A' <= c <= 'Z') || ('0' <= c <= '9') || c == '_'
  }

  /** The run of word characters at the start of `s`. */
  function WordRun(s: string): (w: string)
    ensures |w| <= |s| && w == s[..|w|]
    ensures forall i :: 0 <= i < |w| ==> IsWordChar(w[i])
    ensures |w| < |s| ==> !IsWordChar(s[|w|])
  {
    if s == [] || !IsWordChar(s[0]) then [] else [s[0]] + WordRun(s[1..])
  }

  /** The length of the `{word}` that starts `s`, with `word` the longest run of word characters; 0 when none does. */
  function PlaceholderLength(s: string): (n: nat)
    ensures n == 0 || 3 <= n <= |s|
    ensures n > 0 ==> s[0] == '{' && s[n - 1] == '}' && WordRun(s[1..]) == s[1..n - 1]
  {
    if |s| >= 1 && s[0] == '{' then
      var w := WordRun(s[1..]);
      if |w| >= 1 && |w| + 1 < |s| && s[|w| + 1] == '}' then |w| + 2 else 0
    else 0
  }

  /** The replacement of one matched placeholder: the parameter's text, or the placeholder itself when that is empty. */
  function Fill(placeholder: string, params: map<string, Param>): string
    requires |placeholder| >= 2
  {
    var w := placeholder[1..|placeholder| - 1];
    var text := if w in params then ParamString(params[w]) else "";
    if text != "" then text else placeholder
  }

  /** `value.replace(/\{(\w+)\}/g, (match, k) => params[k]?.toString() || match)`. */
  function Substitute(s: string, params: map<string, Param>): string
    decreases |s|
  {
    if s == [] then []
    else
      var n := PlaceholderLength(s);
      if n > 0 then Fill(s[..n], params) + Substitute(s[n..], params)
      else [s[0]] + Substitute(s[1..], params)
  }

  /** The whole of `t(key, params)`; `params` is `None` when omitted. */
  function TranslateSpec(dict: TValue, key: string, params: Option<map<string, Param>>): string {
    match Walk(dict, JsText.Split(key, '.'))
    case Some(Text(s)) => if params.Some? then Substitute(s, params.value) else s
    case _ => key
  }

  /** `t(key, params)`: the `for` loop walks the key one segment at a time. */
  method Translate(dict: TValue, key: string, params: Option<map<string, Param>>) returns (r: string)
    ensures r == TranslateSpec(dict, key, params)
  {
    var keys := JsText.Split(key, '.');
    var value := dict;
    var i := 0;
    while i < |keys|
      invariant 0 <= i <= |keys|
      invariant Walk(dict, keys) == Walk(value, keys[i..])
    {
      var k := keys[i];
      if value.Node? && k in value.children {
        assert keys[i..][1..] == keys[i + 1..];
        value := value.children[k];
      } else {
        return key;
      }
      i := i + 1;
    }
    if !value.Text? {
      return key;
    }
    if params.Some? {
      r := Substitute(value.s, params.value);
    } else {
      r := value.s;
    }
  }

  /** A parameter that fills a placeholder: one whose string form is not empty. */
  predicate Usable(params: map<string, Param>, w: string) {
    w in params && ParamString(params[w]) != ""
  }

  /** No parameter fills a placeholder. */
  predicate NoneUsable(params: map<string, Param>) {
    forall w :: w in params ==> ParamString(params[w]) == ""
  }

  /** Without a usable parameter every placeholder stays as written, so the text is unchanged. */
  lemma {:induction false} SubstituteNothing(s: string, params: map<string, Param>)
    requires NoneUsable(params)
    ensures Substitute(s, params) == s
    decreases |s|
  {
    if s != [] {
      var head, rest := SubstituteStepUnchanged(s, params);
      SubstituteNothing(rest, params);
    }
  }

  /**
   * Without a usable parameter the first step of the replacement copies a
   * non-empty prefix `head` of the text as it is, and goes on with the rest.
   */
  lemma SubstituteStepUnchanged(s: string, params: map<string, Param>) returns (head: string, rest: string)
    requires s != []
    requires NoneUsable(params)
    ensures s == head + rest && |rest| < |s|
    ensures Substitute(s, params) == head + Substitute(rest, params)
  {
    var n := PlaceholderLength(s);
    if n > 0 {
      FillNothing(s[..n], params);
      head, rest := s[..n], s[n..];
    } else {
      head, rest := [s[0]], s[1..];
    }
    assert s == head + rest;
  }

  lemma FillNothing(p: string, params: map<string, Param>)
    requires |p| >= 2
    requires NoneUsable(params)
    ensures Fill(p, params) == p
  {
    var w := p[1..|p| - 1];
    assert w in params ==> ParamString(params[w]) == "";
  }

  /** Text without an opening brace is left alone whatever the parameters. */
  lemma {:induction false} SubstituteWithoutBraces(s: string, params: map<string, Param>)
    requires forall i :: 0 <= i < |s| ==> s[i] != '{'
    ensures Substitute(s, params) == s
    decreases |s|
  {
    if s != [] {
      SubstituteWithoutBraces(s[1..], params);
      assert [s[0]] + s[1..] == s;
    }
  }

  lemma {:induction false} WordRunOf(w: string, tail: string)
    requires forall i :: 0 <= i < |w| ==> IsWordChar(w[i])
    requires tail == [] || !IsWordChar(tail[0])
    ensures WordRun(w + tail) == w
  {
    if w != [] {
      assert (w + tail)[1..] == w[1..] + tail;
      WordRunOf(w[1..], tail);
      assert [w[0]] + w[1..] == w;
    }
  }

  /** A placeholder with a usable parameter becomes that parameter's text, and the rest follows. */
  lemma PlaceholderFilled(w: string, rest: string, params: map<string, Param>)
    requires |w| >= 1 && forall i :: 0 <= i < |w| ==> IsWordChar(w[i])
    requires Usable(params, w)
    ensures Substitute("{" + w + "}" + rest, params) == ParamString(params[w]) + Substitute(rest, params)
  {
    var s := "{" + w + "}" + rest;
    assert s[1..] == w + ("}" + rest);
    WordRunOf(w, "}" + rest);
    assert PlaceholderLength(s) == |w| + 2;
    assert s[..|w| + 2][1..|w| + 1] == w;
    assert s[|w| + 2..] == rest;
  }

  /**
   * `t` returns the key itself for a key that is missing or does not lead to a
   * string; with `{}` or no usable parameter, the stored text unchanged.
   */
  lemma TranslateFallbacks(dict: TValue, key: string, params: Option<map<string, Param>>)
    ensures (match Walk(dict, JsText.Split(key, '.')) case Some(Text(_)) => false case _ => true) ==>
      TranslateSpec(dict, key, params) == key
    ensures var found := Walk(dict, JsText.Split(key, '.'));
      found.Some? && found.value.Text? &&
      (params.None? || forall w :: w in params.value ==> ParamString(params.value[w]) == "") ==>
      TranslateSpec(dict, key, params) == found.value.s
  {
    var found := Walk(dict, JsText.Split(key, '.'));
    if found.Some? && found.value.Text? && params.Some? && forall w :: w in params.value ==> ParamString(params.value[w]) == "" {
      SubstituteNothing(found.value.s, params.value);
    }
  }

  /** The key joined from a path of dot-free segments finds the text stored at that path. */
  lemma TranslatePath(dict: TValue, path: seq<string>, s: string)
    requires |path| >= 1
    requires forall k, i :: 0 <= k < |path| && 0 <= i < |path[k]| ==> path[k][i] != '.'
    requires Walk(dict, path) == Some(Text(s))
    ensures TranslateSpec(dict, JsText.Join(path, '.'), None) == s
  {
    JsText.SplitJoin(path, '.');
  }

  /** The saved choice is adopted only when it names a known language. */
  function AdoptSaved(current: Lang, saved: Option<string>): (r: Lang)
    ensures saved == Some("vi") ==> r == Vi
    ensures saved == Some("en") ==> r == En
    ensures saved != Some("vi") && saved != Some("en") ==> r == current
  {
    if saved == Some("vi") then Vi else if saved == Some("en") then En else current
  }

  /** The value the save effect writes to `localStorage` for a language. */
  function Code(l: Lang): string {
    match l
    case Vi => "vi"
    case En => "en"
  }

  /**
   * What the save effect stores, the mount effect reads back as the same
   * language; and a stored value changes the language only when it is the
   * code of the language it changes it to.
   */
  lemma SavedRoundTrip(current: Lang, l: Lang, saved: Option<string>)
    ensures AdoptSaved(current, Some(Code(l))) == l
    ensures AdoptSaved(current, saved) != current ==> saved == Some(Code(AdoptSaved(current, saved)))
  {
  }

  /** The provider's state. */
  class LanguageProvider {
    var language: Lang

    constructor ()
      ensures language == Vi
    {
      language := Vi;
    }

    /** The mount effect, with what `localStorage` held. */
    method LoadSaved(saved: Option<string>)
      modifies this
      ensures language == AdoptSaved(old(language), saved)
    {
      if saved == Some("vi") {
        language := Vi;
      } else if saved == Some("en") {
        language := En;
      }
    }

    method SetLanguage(lang: Lang)
      modifies this
      ensures language == lang
    {
      language := lang;
    }
  }
}
