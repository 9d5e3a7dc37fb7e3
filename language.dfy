/** client/src/lib/language.tsx: the translation lookup `t`, the `setLanguage` guard and the
    language chosen on start-up. */
module Language {
  import opened Optional
  import opened Strings
  import opened Schema

  /** One section of the translations object: a string table per language. */
  datatype Section = Section(en: map<string, string>, pt: map<string, string>)

  /** The translations object: its sections in the order `for...in` visits them. */
  type Table = seq<(string, Section)>

  /** The section names, in order. */
  function Names(t: Table): (r: seq<string>)
    ensures |r| == |t| && forall i :: 0 <= i < |t| ==> r[i] == t[i].0
  {
    seq(|t|, i requires 0 <= i < |t| => t[i].0)
  }

  /** `translations[name]`: the section stored under that name. */
  function SectionNamed(t: Table, name: string): (r: Option<Section>)
    ensures r.None? <==> forall i :: 0 <= i < |t| ==> t[i].0 != name
    ensures r.None? <==> name !in Names(t)
    decreases |t|
  {
    if t == [] then None
    else if t[0].0 == name then Some(t[0].1)
    else SectionNamed(t[1..], name)
  }

  /** `section?.[language]`: only "en" and "pt" have a table. */
  function StringsFor(section: Section, language: string): Option<map<string, string>> {
    if language == "en" then Some(section.en)
    else if language == "pt" then Some(section.pt)
    else None
  }

  /** `translations[name]?.[language]?.[key]`. */
  function Entry(t: Table, name: string, language: string, key: string): Option<string> {
    match SectionNamed(t, name)
    case None => None
    case Some(section) =>
      match StringsFor(section, language)
      case None => None
      case Some(strings) => if key in strings then Some(strings[key]) else None
  }

  /** The `for...in` search of an undotted key, from the section at `from` on: the first
      truthy entry. */
  function Search(t: Table, from: nat, language: string, key: string): (r: Option<string>)
    requires from <= |t|
    ensures r.None? <==> forall i :: from <= i < |t| ==> !Truthy(Entry(t, t[i].0, language, key))
    ensures r.Some? ==> r.value != ""
    decreases |t| - from
  {
    if from == |t| then None
    else
      var e := Entry(t, t[from].0, language, key);
      if Truthy(e) then e else Search(t, from + 1, language, key)
  }

  /** `t(key)`: an undotted key is searched in every section, a dotted one only in section
      `parts[0]` under `parts[1]`; a missing or empty translation gives back the key. */
  function Translate(t: Table, language: string, key: string): (r: string)
    ensures r == key || r != ""
  {
    var parts := Split(key, '.');
    if |parts| == 1 then
      match Search(t, 0, language, key)
      case Some(v) => v
      case None => key
    else
      var e := Entry(t, parts[0], language, parts[1]);
      if Truthy(e) then e.value else key
  }

  /** The search returns the entry of the first section that has a truthy one. */
  lemma {:induction false} SearchFindsFirst(t: Table, from: nat, language: string, key: string, i: nat)
    requires from <= i < |t| && Truthy(Entry(t, t[i].0, language, key))
    requires forall j :: from <= j < i ==> !Truthy(Entry(t, t[j].0, language, key))
    ensures Search(t, from, language, key) == Entry(t, t[i].0, language, key)
    decreases i - from
  {
    if from < i {
      SearchFindsFirst(t, from + 1, language, key, i);
    }
  }

  /** An undotted key gives the entry of the first section, in order, whose table for the
      language holds a non-empty value for it. */
  lemma UndottedFirstMatch(t: Table, language: string, key: string, i: nat)
    requires '.' !in key
    requires i < |t| && Truthy(Entry(t, t[i].0, language, key))
    requires forall j :: 0 <= j < i ==> !Truthy(Entry(t, t[j].0, language, key))
    ensures Translate(t, language, key) == Entry(t, t[i].0, language, key).value
  {
    SearchFindsFirst(t, 0, language, key, i);
  }

  /** An undotted key that no section translates (or translates as "") comes back as it is. */
  lemma UndottedMissing(t: Table, language: string, key: string)
    requires '.' !in key
    requires forall i :: 0 <= i < |t| ==> !Truthy(Entry(t, t[i].0, language, key))
    ensures Translate(t, language, key) == key
  {
  }

  /** A dotted key looks only at section `section`, entry `sub`; whatever follows a second
      '.' is ignored, and a missing or empty entry gives back the whole key. */
  lemma DottedKey(t: Table, language: string, section: string, sub: string, rest: string)
    requires '.' !in section && '.' !in sub
    requires rest == "" || rest[0] == '.'
    ensures var key := section + "." + sub + rest;
            var e := Entry(t, section, language, sub);
            Translate(t, language, key) == if Truthy(e) then e.value else key
  {
    DottedParts(section, sub, rest);
  }

  /** The first two pieces of `section.sub...` are `section` and `sub`. */
  lemma DottedParts(section: string, sub: string, rest: string)
    requires '.' !in section && '.' !in sub
    requires rest == "" || rest[0] == '.'
    ensures var parts := Split(section + "." + sub + rest, '.');
            |parts| >= 2 && parts[0] == section && parts[1] == sub
  {
    var tail := sub + rest;
    assert section + "." + sub + rest == section + ['.'] + tail;
    SplitAfter(section, '.', tail);
    assert Split(tail, '.')[0] == sub by {
      if rest == "" {
        assert tail == sub;
        SplitNone(sub, '.');
      } else {
        assert tail == sub + ['.'] + rest[1..];
        SplitAfter(sub, '.', rest[1..]);
      }
    }
  }

  /** Under a language with no tables every key is shown as it is. */
  lemma UnlistedLanguageShowsKeys(t: Table, language: string, key: string)
    requires language !in LANGUAGES
    ensures Translate(t, language, key) == key
  {
    assert forall name :: Entry(t, name, language, key) == None;
  }

  /** The language on start-up: the stored one when it is not empty, else "en". It is not
      checked against `LANGUAGES`. */
  function InitialLanguage(stored: Option<string>): (r: string)
    ensures Truthy(stored) ==> r == stored.value
    ensures !Truthy(stored) ==> r == "en"
    ensures r != ""
  {
    OrElse(stored, "en")
  }

  /** What the translations request gives back. */
  datatype Fetch = Fetched(data: Option<Table>) | FetchFailed

  /** The sections the provider starts with, before the translations are fetched. */
  const InitialTranslations: Table :=
    [("common", Section(map["common" := "common"], map["common" := "comum"]))]

  /** The state `LanguageProvider` keeps: the language, its copy in local storage, the
      translations and the loading flag. */
  class LanguageProvider {
    var language: string
    var stored: Option<string>
    var translations: Table
    var isLoading: bool

    constructor(storedLanguage: Option<string>)
      ensures language == InitialLanguage(storedLanguage) && stored == storedLanguage
      ensures translations == InitialTranslations && isLoading
    {
      language := InitialLanguage(storedLanguage);
      stored := storedLanguage;
      translations := InitialTranslations;
      isLoading := true;
    }

    /** `setLanguage`: only a language of `LANGUAGES` is taken, and it is also stored. */
    method SetLanguage(lang: string)
      modifies this
      ensures lang in LANGUAGES ==> language == lang && stored == Some(lang)
      ensures lang !in LANGUAGES ==> language == old(language) && stored == old(stored)
      ensures translations == old(translations) && isLoading == old(isLoading)
    {
      if lang in LANGUAGES {
        stored := Some(lang);
        language := lang;
      }
    }

    /** The loading effect: a present answer (even `{}`) replaces the translations, a null
        one keeps what there was, and a failed request installs `defaults`. */
    method LoadTranslations(response: Fetch, defaults: Table)
      modifies this
      ensures response.Fetched? && response.data.Some? ==> translations == response.data.value
      ensures response.Fetched? && response.data.None? ==> translations == old(translations)
      ensures response.FetchFailed? ==> translations == defaults
      ensures !isLoading && language == old(language) && stored == old(stored)
    {
      isLoading := true;
      match response {
        case Fetched(data) =>
          if data.Some? {
            translations := data.value;
          }
        case FetchFailed =>
          translations := defaults;
      }
      isLoading := false;
    }
  }
}
