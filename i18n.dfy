/** Translation lookup (`t`) and the language override (`set_language`): the
    candidate languages are the override alone when one is set, else the
    system's language list; each is cut down to its language code, the first
    table holding the key answers, then the German table, then the key itself. */
module I18n {
  import opened Wrappers
  import opened Text

  /** Language code to key-to-text table (the bundled `de`, `en`, `es`, `fr`, `ja`, `sv` files). */
  type Tables = map<string, map<string, string>>

  /** `lang.split('_').next()` then `.split('.').next()`: `de_DE.UTF-8` becomes `de`. */
  function LangCode(locale: string): (r: string)
    ensures |r| <= |locale| && r == locale[..|r|]
    ensures '_' !in r && '.' !in r
    ensures |r| < |locale| ==> locale[|r|] == '_' || locale[|r|] == '.'
  {
    PrefixBefore(PrefixBefore(locale, '_'), '.')
  }

  lemma LangCodeExamples()
    ensures LangCode("de_DE.UTF-8") == "de"
    ensures LangCode("en.UTF-8") == "en"
    ensures LangCode("C") == "C"
  {
    assert "de_DE.UTF-8" == "de" + ['_'] + "DE.UTF-8";
    LangCodeBeforeSeparator("de", '_', "DE.UTF-8");
    assert "en.UTF-8" == "en" + ['.'] + "UTF-8";
    LangCodeBeforeSeparator("en", '.', "UTF-8");
    LangCodeOfCode("C");
  }

  /** The language code is everything before the first `_` or `.`. */
  lemma LangCodeBeforeSeparator(code: string, sep: char, rest: string)
    requires '_' !in code && '.' !in code && (sep == '_' || sep == '.')
    ensures LangCode(code + [sep] + rest) == code
  {
    var locale := code + [sep] + rest;
    var r := LangCode(locale);
    assert locale[|code|] == sep;
    assert |r| <= |code|;
    assert forall i :: 0 <= i < |code| ==> locale[i] == code[i];
    assert code == locale[..|code|];
  }

  /** A code without `_` or `.` is its own language code. */
  lemma {:induction false} LangCodeOfCode(code: string)
    requires '_' !in code && '.' !in code
    ensures LangCode(code) == code
  {
    PrefixBeforeAbsent(code, '_');
    PrefixBeforeAbsent(code, '.');
  }

  lemma {:induction false} PrefixBeforeAbsent(s: string, c: char)
    requires c !in s
    ensures PrefixBefore(s, c) == s
  {
    if |s| > 0 {
      assert c !in s[1..];
      PrefixBeforeAbsent(s[1..], c);
    }
  }

  /** The table for `lang`'s code exists and holds `key`. */
  predicate Has(tables: Tables, lang: string, key: string) {
    LangCode(lang) in tables && key in tables[LangCode(lang)]
  }

  /** No candidate before position `i` has the key. */
  predicate FirstWith(tables: Tables, langs: seq<string>, key: string, i: nat)
    requires i <= |langs|
  {
    forall j :: 0 <= j < i ==> !Has(tables, langs[j], key)
  }

  /** The `for` loop: the position of the first candidate whose table holds the key. */
  function FirstHit(tables: Tables, langs: seq<string>, key: string): (r: Option<nat>)
    ensures r.Some? ==> r.value < |langs| && Has(tables, langs[r.value], key)
    ensures r.Some? ==> forall j :: 0 <= j < r.value ==> !Has(tables, langs[j], key)
    ensures r.None? ==> forall j :: 0 <= j < |langs| ==> !Has(tables, langs[j], key)
  {
    if |langs| == 0 then None
    else if Has(tables, langs[0], key) then Some(0)
    else match FirstHit(tables, langs[1..], key)
      case None => None
      case Some(i) => Some(i + 1)
  }

  /** `t(key)` for the candidate languages `langs`. */
  function T(tables: Tables, langs: seq<string>, key: string): (r: string)
    ensures forall i :: 0 <= i < |langs| && Has(tables, langs[i], key) && FirstWith(tables, langs, key, i) ==>
      r == tables[LangCode(langs[i])][key]
    ensures (forall i :: 0 <= i < |langs| ==> !Has(tables, langs[i], key)) ==>
      r == (if "de" in tables && key in tables["de"] then tables["de"][key] else key)
  {
    match FirstHit(tables, langs, key)
    case Some(i) => tables[LangCode(langs[i])][key]
    case None => if "de" in tables && key in tables["de"] then tables["de"][key] else key
  }

  /** The candidate list: the override alone, or the system's languages. */
  function Candidates(overrideLang: Option<string>, system: seq<string>): (r: seq<string>)
    ensures overrideLang.Some? ==> r == [overrideLang.value]
    ensures overrideLang.None? ==> r == system
  {
    match overrideLang
    case Some(l) => [l]
    case None => system
  }

  /** Whatever `t` answers is a text of some table or the key itself. */
  lemma TAnswers(tables: Tables, langs: seq<string>, key: string)
    ensures var r := T(tables, langs, key);
      r == key || exists code :: code in tables && key in tables[code] && r == tables[code][key]
  {
  }

  /** With an override set, a language the override's table knows answers,
      whatever the system languages are. */
  lemma OverrideWins(tables: Tables, l: string, system: seq<string>, key: string)
    requires Has(tables, l, key)
    ensures T(tables, Candidates(Some(l), system), key) == tables[LangCode(l)][key]
  {
  }

  /** The translation state: the bundled tables and the override `set_language` writes. */
  class Localizer {
    const tables: Tables
    var overrideLang: Option<string>

    constructor (tables: Tables)
      ensures this.tables == tables && overrideLang.None?
    {
      this.tables := tables;
      overrideLang := None;
    }

    /** `set_language`: from now on the candidates are exactly `[lang]`. */
    method SetLanguage(lang: string)
      modifies this
      ensures overrideLang == Some(lang)
      ensures forall system :: Candidates(overrideLang, system) == [lang]
    {
      overrideLang := Some(lang);
    }

    /** `t`: a query that reads the override and changes nothing. */
    function Translate(system: seq<string>, key: string): (r: string)
      reads this
      ensures overrideLang.Some? && Has(tables, overrideLang.value, key) ==>
        r == tables[LangCode(overrideLang.value)][key]
      ensures overrideLang.Some? && !Has(tables, overrideLang.value, key) ==>
        r == (if "de" in tables && key in tables["de"] then tables["de"][key] else key)
      ensures overrideLang.None? ==> r == T(tables, system, key)
    {
      T(tables, Candidates(overrideLang, system), key)
    }
  }
}
