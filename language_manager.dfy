/** Translations: per language a tree of named strings loaded from a YAML
    document, the current language, and the lookup of a dotted key with
    `{placeholder}` substitution. Reading and parsing the file is the
    `LangFile` outcome passed to the loader. */
module LanguageManager {
  import opened Wrappers
  import opened Strings

  /** A node of a translation document: a string, or a table of named
      children. */
  datatype Node = Str(text: string) | Table(entries: map<string, Node>)

  /** What reading and parsing `lang/<lang>.yml` gives: no file, an error
      (caught and logged), or a document, empty (`undefined`) or not. */
  datatype LangFile = NotFound | Failed | Parsed(data: Option<Node>)

  /** `value[k]` on a node: a table's child, and nothing otherwise. */
  function Child(n: Node, k: string): (r: Option<Node>)
    ensures r.Some? <==> n.Table? && k in n.entries
  {
    match n
    case Table(m) => if k in m then Some(m[k]) else None
    case Str(_) => None
  }

  /** The walk of the key segments from `n`: nothing at the first missing
      segment. */
  function Resolve(n: Node, keys: seq<string>): Option<Node>
  {
    if keys == [] then Some(n)
    else match Child(n, keys[0])
      case None => None
      case Some(c) => Resolve(c, keys[1..])
  }

  /** `String(value)` */
  function Render(n: Node): string
  {
    match n
    case Str(s) => s
    case Table(_) => "[object Object]"
  }

  /** JavaScript truthiness of the document of the current language. */
  predicate TruthyDoc(d: Option<Node>)
  {
    d.Some? && d.value != Str("")
  }

  /** The placeholder `{p}` as the literal text the replacement pattern
      matches. */
  function Placeholder(p: string): (r: string)
    ensures |r| == |p| + 2 && r[0] == '{'
  {
    "{" + p + "}"
  }

  /** The replacements applied in their order, each to every occurrence. */
  function Substitute(text: string, reps: seq<(string, string)>): string
    decreases |reps|
  {
    if reps == [] then text
    else Substitute(ReplaceAll(text, Placeholder(reps[0].0), reps[0].1), reps[1..])
  }

  /** `translate(key, replacements)`, specified: the key itself when the
      current language has no truthy document or a segment is missing,
      otherwise the rendered value with the replacements applied. */
  function Translation(doc: Option<Node>, key: string, reps: Option<seq<(string, string)>>): (r: string)
    ensures !TruthyDoc(doc) || Resolve(doc.value, Split(key, '.')).None? ==> r == key
    ensures TruthyDoc(doc) && Resolve(doc.value, Split(key, '.')).Some? && (reps.None? || reps == Some([])) ==>
      r == Render(Resolve(doc.value, Split(key, '.')).value)
  {
    if !TruthyDoc(doc) then key
    else match Resolve(doc.value, Split(key, '.'))
      case None => key
      case Some(v) => if reps.Some? then Substitute(Render(v), reps.value) else Render(v)
  }

  /** Replacements whose placeholders do not occur in the text leave it as it
      is. */
  lemma {:induction false} SubstituteAbsent(text: string, reps: seq<(string, string)>)
    decreases |reps|
    requires forall j, i :: 0 <= j < |reps| && 0 <= i <= |text| ==> !StartsWith(text[i..], Placeholder(reps[j].0))
    ensures Substitute(text, reps) == text
  {
    if reps != [] {
      ReplaceAllAbsent(text, Placeholder(reps[0].0), reps[0].1);
      forall j, i | 0 <= j < |reps[1..]| && 0 <= i <= |text|
        ensures !StartsWith(text[i..], Placeholder(reps[1..][j].0))
      {
        assert reps[1..][j] == reps[j + 1];
      }
      SubstituteAbsent(text, reps[1..]);
    }
  }

  /** Every occurrence is replaced and nothing else changes: a text made of
      literal pieces without `{`, joined by the placeholder, becomes the same
      pieces joined by the replacement. */
  lemma {:induction false} ReplaceJoined(pieces: seq<string>, pat: string, rep: string)
    requires |pieces| >= 1 && |pat| > 0
    requires forall i :: 0 <= i < |pieces| ==> pat[0] !in pieces[i]
    ensures ReplaceAll(Join(pieces, pat), pat, rep) == Join(pieces, rep)
  {
    if |pieces| == 1 {
      ReplaceAllLiteral(pieces[0], pat, rep, "");
      assert pieces[0] + "" == pieces[0];
    } else {
      ReplaceJoined(pieces[1..], pat, rep);
      ReplaceAllStep(pieces[0], pat, rep, Join(pieces[1..], pat));
      assert Join(pieces, pat) == pieces[0] + pat + Join(pieces[1..], pat);
    }
  }

  /** A single replacement fills every occurrence of its placeholder in a
      string of the document. */
  lemma TranslateFillsPlaceholder(doc: Node, key: string, pieces: seq<string>, p: string, rep: string)
    requires doc != Str("")
    requires Resolve(doc, Split(key, '.')) == Some(Str(Join(pieces, Placeholder(p))))
    requires |pieces| >= 1 && forall i :: 0 <= i < |pieces| ==> '{' !in pieces[i]
    ensures Translation(Some(doc), key, Some([(p, rep)])) == Join(pieces, rep)
  {
    var text := Join(pieces, Placeholder(p));
    ReplaceJoined(pieces, Placeholder(p), rep);
    assert [(p, rep)][1..] == [];
    assert Substitute(text, [(p, rep)]) == ReplaceAll(text, Placeholder(p), rep);
  }

  /** A missing segment anywhere in the key gives the key back. */
  lemma {:induction false} MissingSegmentGivesKey(n: Node, keys: seq<string>, i: nat)
    requires i < |keys|
    requires Resolve(n, keys[..i]).Some? && Child(Resolve(n, keys[..i]).value, keys[i]).None?
    ensures Resolve(n, keys) == None
  {
    if i > 0 {
      assert keys[..i][0] == keys[0] && keys[..i][1..] == keys[1..][..i - 1];
      var c := Child(n, keys[0]).value;
      MissingSegmentGivesKey(c, keys[1..], i - 1);
    }
  }

  class Manager {
    var currentLanguage: string
    var translations: map<string, Option<Node>>

    /** The instance: the current language is `en`, whose file is loaded. */
    constructor (enFile: LangFile)
      ensures currentLanguage == "en"
      ensures translations == if enFile.Parsed? then map["en" := enFile.data] else map[]
    {
      currentLanguage := "en";
      translations := map[];
      new;
      LoadLanguage("en", enFile);
    }

    /** `loadLanguage`: stores the parsed document, even an empty one; a
        missing file or an error leaves the table as it was. */
    method LoadLanguage(lang: string, file: LangFile)
      modifies this
      ensures currentLanguage == old(currentLanguage)
      ensures translations == if file.Parsed? then old(translations)[lang := file.data] else old(translations)
    {
      if file.Parsed? {
        translations := translations[lang := file.data];
      }
    }

    /** `setLanguage`: loads the language if it is not there yet, and
        switches to it exactly when it is there afterwards. */
    method SetLanguage(lang: string, file: LangFile) returns (ok: bool)
      modifies this
      ensures translations == if lang in old(translations) || !file.Parsed? then old(translations)
                              else old(translations)[lang := file.data]
      ensures ok <==> lang in translations
      ensures ok ==> currentLanguage == lang
      ensures !ok ==> currentLanguage == old(currentLanguage)
    {
      if lang !in translations {
        LoadLanguage(lang, file);
      }
      if lang in translations {
        currentLanguage := lang;
        return true;
      }
      return false;
    }

    /** The document of the current language, `undefined` when absent. */
    function Current(): Option<Node>
      reads this
    {
      if currentLanguage in translations then translations[currentLanguage] else None
    }

    /** `translate`: the walk over the segments, then the replacements in
        order. */
    method Translate(key: string, reps: Option<seq<(string, string)>>) returns (r: string)
      ensures r == Translation(Current(), key, reps)
    {
      var keys := Split(key, '.');
      var doc := Current();
      if !TruthyDoc(doc) {
        return key;
      }
      var value := doc.value;
      var i := 0;
      while i < |keys|
        invariant 0 <= i <= |keys|
        invariant Resolve(doc.value, keys) == Resolve(value, keys[i..])
      {
        assert keys[i..][1..] == keys[i + 1..];
        var next := Child(value, keys[i]);
        if next.None? {
          return key;
        }
        value := next.value;
        i := i + 1;
      }
      var result := Render(value);
      if reps.Some? {
        var rs := reps.value;
        var j := 0;
        while j < |rs|
          invariant 0 <= j <= |rs|
          invariant Substitute(Render(value), rs) == Substitute(result, rs[j..])
        {
          assert rs[j..][1..] == rs[j + 1..];
          result := ReplaceAll(result, Placeholder(rs[j].0), rs[j].1);
          j := j + 1;
        }
      }
      return result;
    }

    /** `t`: the same as `translate`. */
    method T(key: string, reps: Option<seq<(string, string)>>) returns (r: string)
      ensures r == Translation(Current(), key, reps)
    {
      r := Translate(key, reps);
    }
  }

  /** With no document for the current language, or an empty one, every key
      translates to itself; switching to a language whose file is missing
      fails and keeps the current language. */
  method UnknownLanguage(enFile: LangFile, other: string, key: string, reps: Option<seq<(string, string)>>)
    returns (switched: bool, current: string, text: string)
    requires other != "en"
    requires enFile.Parsed? ==> enFile.data.None?
    ensures !switched && current == "en" && text == key
  {
    var m := new Manager(enFile);
    switched := m.SetLanguage(other, NotFound);
    current := m.currentLanguage;
    text := m.T(key, reps);
  }
}
