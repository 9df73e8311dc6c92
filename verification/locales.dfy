/** The locale helpers: picking a supported language from a Telegram
    language code, and looking a dotted key up in a translation table. */
module Locales {
  import opened Strings

  datatype Language = En | Ru | Es

  function Code(l: Language): string {
    match l
    case En => "en"
    case Ru => "ru"
    case Es => "es"
  }

  const SupportedLanguages: seq<Language> := [En, Ru, Es]
  const DefaultLanguage: Language := En

  /** `toLowerCase` on one character, for the ASCII letters. */
  function LowerChar(c: char): char {
    if 'A' <= c <= 'Z' then (c as int + 32) as char else c
  }

  function Lower(s: string): (r: string)
    ensures |r| == |s|
    ensures forall i | 0 <= i < |s| :: r[i] == LowerChar(s[i])
  {
    seq(|s|, i requires 0 <= i < |s| => LowerChar(s[i]))
  }

  /** The language tag `t` has primary subtag `tag`: it is `tag` or starts with `tag-`. */
  predicate HasPrimaryTag(t: string, tag: string) {
    t == tag || (|t| > |tag| && t[..|tag|] == tag && t[|tag|] == '-')
  }

  /** `detectLanguage(telegramLanguageCode?)`: the default for a missing or
      empty code; otherwise the lower-cased code up to its first `-`, with
      ru and es recognised and everything else read as English. */
  function DetectLanguage(code: Option<string>): Language {
    if code.None? || code.value == "" then DefaultLanguage
    else
      var primary := Split(Lower(code.value), '-')[0];
      if primary == "ru" then Ru
      else if primary == "es" then Es
      else En
  }

  /** The first piece of a `-` split is `tag` exactly when the string has
      `tag` as its primary subtag. */
  lemma PrimaryTag(t: string, tag: string)
    requires '-' !in tag
    ensures Split(t, '-')[0] == tag <==> HasPrimaryTag(t, tag)
  {
    var h := Split(t, '-')[0];
    SplitHead(t, '-');
    if HasPrimaryTag(t, tag) {
      assert forall k | 0 <= k < |tag| :: t[k] == tag[k] && t[k] != '-';
      assert |h| >= |tag|;
      assert |h| <= |tag| by {
        if t != tag {
          assert t[|tag|] == '-';
          assert forall k | 0 <= k < |h| :: h[k] == t[k];
        }
      }
      assert h == t[..|tag|];
    }
  }

  /** What detection means, without reference to splitting: a missing or
      empty code gives English; otherwise Russian exactly for `ru` and
      `ru-*`, Spanish exactly for `es` and `es-*` (in any letter case), and
      English for everything else. */
  lemma DetectLanguageMeaning(code: Option<string>)
    ensures DetectLanguage(code) ==
      if code.None? || code.value == "" then En
      else if HasPrimaryTag(Lower(code.value), "ru") then Ru
      else if HasPrimaryTag(Lower(code.value), "es") then Es
      else En
  {
    if code.Some? && code.value != "" {
      assert '-' !in "ru" && '-' !in "es";
      PrimaryTag(Lower(code.value), "ru");
      PrimaryTag(Lower(code.value), "es");
    }
  }

  /** Detection never leaves the supported set, and it is the identity on
      the codes it produces. */
  lemma DetectLanguageIdempotent(code: Option<string>)
    ensures DetectLanguage(code) in SupportedLanguages
    ensures DetectLanguage(Some(Code(DetectLanguage(code)))) == DetectLanguage(code)
  {
    var l := DetectLanguage(code);
    DetectLanguageMeaning(Some(Code(l)));
    assert Lower(Code(l)) == Code(l);
  }

  /** Detection ignores the letter case of the code. */
  lemma DetectLanguageIgnoresCase(s: string)
    ensures DetectLanguage(Some(Lower(s))) == DetectLanguage(Some(s))
  {
    assert Lower(Lower(s)) == Lower(s);
  }

  // ----- Translation lookup --------------------------------------------

  /** A value of a JSON translation table. */
  datatype Json =
    | JStr(str: string)
    | JNum(num: int)
    | JBool(flag: bool)
    | JNull
    | JObj(fields: map<string, Json>)

  /** JavaScript truthiness of a JSON value: "", 0, false and null are falsy. */
  predicate JsonTruthy(j: Json) {
    match j
    case JStr(s) => s != ""
    case JNum(n) => n != 0
    case JBool(b) => b
    case JNull => false
    case JObj(_) => true
  }

  /** The three translation tables. */
  datatype Catalog = Catalog(en: map<string, Json>, ru: map<string, Json>, es: map<string, Json>)

  /** `locales[language] || locales[defaultLanguage]`: the table of a
      supported language, the English one for any other string. */
  function LocaleFor(catalog: Catalog, language: string): map<string, Json> {
    if language == "ru" then catalog.ru
    else if language == "es" then catalog.es
    else catalog.en
  }

  /** `value?.[k]`, with None for undefined: a member of an object, or
      undefined. */
  function Member(v: Option<Json>, k: string): Option<Json> {
    if v.Some? && v.value.JObj? && k in v.value.fields then Some(v.value.fields[k]) else None
  }

  /** The value reached by following a key path from `v`. */
  function Resolve(v: Option<Json>, path: seq<string>): Option<Json>
    decreases |path|
  {
    if |path| == 0 then v else Resolve(Member(v, path[0]), path[1..])
  }

  /** Once the walk has fallen off the table it stays off. */
  lemma {:induction false} ResolveUndefined(path: seq<string>)
    ensures Resolve(None, path) == None
    decreases |path|
  {
    if |path| > 0 {
      ResolveUndefined(path[1..]);
    }
  }

  /** `t(language, key)`: split the key at dots, walk the table, stop at the
      first missing segment, and answer the value found if it is truthy and
      the key itself otherwise. */
  method Translate(catalog: Catalog, language: string, key: string) returns (r: Json)
    ensures
      var found := Resolve(Some(JObj(LocaleFor(catalog, language))), Split(key, '.'));
      r == if found.Some? && JsonTruthy(found.value) then found.value else JStr(key)
    ensures r == JStr(key) || JsonTruthy(r)
  {
    var root := Some(JObj(LocaleFor(catalog, language)));
    var keys := Split(key, '.');
    var value := root;
    var i := 0;
    while i < |keys|
      invariant 0 <= i <= |keys|
      invariant Resolve(value, keys[i..]) == Resolve(root, keys)
    {
      assert keys[i..][1..] == keys[i + 1..];
      value := Member(value, keys[i]);
      i := i + 1;
      if value.None? {
        ResolveUndefined(keys[i..]);
        break;
      }
    }
    if value.Some? && JsonTruthy(value.value) {
      r := value.value;
    } else {
      r := JStr(key);
    }
  }

  /** A language outside the supported set reads the English table. */
  lemma UnsupportedLanguageReadsEnglish(catalog: Catalog, language: string)
    requires language != "ru" && language != "es"
    ensures LocaleFor(catalog, language) == catalog.en
  {
  }

  /** A path through nested objects ending in a non-empty string resolves
      to that string. */
  lemma ResolveNested(fields: map<string, Json>, a: string, inner: map<string, Json>, b: string, text: string)
    requires a in fields && fields[a] == JObj(inner)
    requires b in inner && inner[b] == JStr(text)
    ensures Resolve(Some(JObj(fields)), [a, b]) == Some(JStr(text))
  {
    assert [a, b][1..] == [b];
    assert [b][1..] == [];
    assert Resolve(Some(JObj(fields)), [a, b]) == Resolve(Some(JObj(inner)), [b]);
    assert Resolve(Some(JObj(inner)), [b]) == Resolve(Some(JStr(text)), []);
  }
}
