/** The browser client's localisation rules (main.js): string lookup with an English fallback, the
    warning-code lookup, the per-locale system prompt and the slot of the history that holds it.
    The string tables themselves are parameters: a locale maps to a table of keys and texts. */
module Locale {
  import opened Wrappers
  import opened Conversation

  type Strings = map<string, string>
  type StringTables = map<string, Strings>

  /** The locale every lookup falls back to. */
  const English: string := "en"

  /** `localeStrings[locale] || localeStrings.en`. */
  function TableFor(tables: StringTables, locale: string): Strings
    requires English in tables
  {
    if locale in tables then tables[locale] else tables[English]
  }

  /** `t(key)`: the key's text in the locale's table, else in the English table, else the key itself. */
  function T(tables: StringTables, locale: string, key: string): (r: string)
    requires English in tables
    ensures key in TableFor(tables, locale) ==> r == TableFor(tables, locale)[key]
    ensures r == key || (key in TableFor(tables, locale) && r == TableFor(tables, locale)[key])
                     || (key in tables[English] && r == tables[English][key])
  {
    var table := TableFor(tables, locale);
    if key in table then table[key]
    else if key in tables[English] then tables[English][key]
    else key
  }

  /** A locale without a table reads every key as English does. */
  lemma UnknownLocaleReadsEnglish(tables: StringTables, locale: string, key: string)
    requires English in tables && locale !in tables
    ensures T(tables, locale, key) == T(tables, English, key)
  {
  }

  /** A key the locale's table lacks is looked up in English, and the key itself is the last resort. */
  lemma MissingKeyFallsBack(tables: StringTables, locale: string, key: string)
    requires English in tables && locale in tables && key !in tables[locale]
    ensures T(tables, locale, key) == T(tables, English, key)
    ensures key !in tables[English] ==> T(tables, locale, key) == key
  {
  }

  /** The key under which a warning code's text is stored. */
  function WarningKey(code: string): string {
    "warning_" + code
  }

  /** `translateWarning(code)`: no text for a missing or empty code, otherwise the text of its key. */
  function TranslateWarning(tables: StringTables, locale: string, code: Option<string>): (r: Option<string>)
    requires English in tables
    ensures r.None? <==> code.None? || code.value == ""
    ensures r.Some? ==> r.value == T(tables, locale, WarningKey(code.value))
  {
    if code.None? || code.value == "" then None else Some(T(tables, locale, WarningKey(code.value)))
  }

  /** A warning the current locale translates is shown in that locale's words. */
  lemma WarningInLocale(tables: StringTables, locale: string, code: string)
    requires English in tables && locale in tables && code != ""
    requires WarningKey(code) in tables[locale]
    ensures TranslateWarning(tables, locale, Some(code)) == Some(tables[locale][WarningKey(code)])
  {
  }

  /** `applyLocale`: a locale without a string table is replaced by English. */
  function LocaleOrEnglish(tables: StringTables, locale: string): (r: string)
    requires English in tables
    ensures r in tables
    ensures r == locale <==> locale in tables
  {
    if locale in tables then locale else English
  }

  /** `localePrompts[currentLocale] || localePrompts.en`: an absent or empty prompt falls back. */
  function PromptFor(prompts: map<string, string>, locale: string): (r: string)
    requires English in prompts
    ensures locale in prompts && prompts[locale] != "" ==> r == prompts[locale]
    ensures locale !in prompts || prompts[locale] == "" ==> r == prompts[English]
  {
    if locale in prompts && prompts[locale] != "" then prompts[locale] else prompts[English]
  }

  /** With a non-empty English prompt the system prompt is never empty. */
  lemma PromptNeverEmpty(prompts: map<string, string>, locale: string)
    requires English in prompts && prompts[English] != ""
    ensures PromptFor(prompts, locale) != ""
  {
  }

  /** `localeLangCodes[currentLocale]`, sent as the `lang` field only when it is non-empty. */
  function LangCodeFor(codes: map<string, string>, locale: string): (r: Option<string>)
    ensures r.Some? <==> locale in codes && codes[locale] != ""
    ensures r.Some? ==> r.value == codes[locale]
  {
    if locale in codes && codes[locale] != "" then Some(codes[locale]) else None
  }

  /** `syncSystemPrompt` on a history `h`: an empty history gains one system turn; otherwise only the
      content of the first turn is replaced, its role and every later turn staying as they were. */
  function SyncedHistory(h: seq<Turn>, prompt: string): (r: seq<Turn>)
    ensures |r| == if h == [] then 1 else |h|
    ensures r[0].content == prompt
    ensures r[0].role == if h == [] then System else h[0].role
    ensures r[1..] == if h == [] then [] else h[1..]
  {
    if h == [] then [Turn(System, prompt)] else h[0 := h[0].(content := prompt)]
  }

  /** Synchronising twice with the same prompt changes nothing the second time. */
  lemma SyncIdempotent(h: seq<Turn>, prompt: string)
    ensures SyncedHistory(SyncedHistory(h, prompt), prompt) == SyncedHistory(h, prompt)
  {
    var once := SyncedHistory(h, prompt);
    var twice := SyncedHistory(once, prompt);
    assert twice == once by {
      assert |twice| == |once|;
      assert twice[0] == once[0];
      assert twice[1..] == once[1..];
      assert forall k :: 1 <= k < |once| ==> twice[k] == twice[1..][k - 1];
    }
  }

  /** Only the last prompt matters: switching locale twice is switching once to the second. */
  lemma SyncLastWins(h: seq<Turn>, p: string, q: string)
    ensures SyncedHistory(SyncedHistory(h, p), q) == SyncedHistory(h, q)
  {
    var a := SyncedHistory(SyncedHistory(h, p), q);
    var b := SyncedHistory(h, q);
    assert a == b by {
      assert a[0] == b[0];
      assert a[1..] == b[1..];
      assert forall k :: 1 <= k < |a| ==> a[k] == a[1..][k - 1] && b[k] == b[1..][k - 1];
    }
  }
}
