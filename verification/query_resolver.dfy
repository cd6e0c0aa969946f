/** The `/api/health-query` handler: normalise a free-text question and look
    it up, exactly, in a static per-language phrase table, falling back to a
    templated apology on a miss. */
module QueryResolver {
  import opened Collections
  import opened Text

  /** Language code -> normalised question -> canned answer. */
  type PhraseTable = map<string, map<string, string>>

  /** The phrase table compiled into the server. */
  const KnowledgeBase: PhraseTable :=
    map["en" := EnglishTable, "yo" := YorubaTable, "ha" := HausaTable, "ig" := IgboTable, "pi" := PidginTable]

  const EnglishTable: map<string, string> := map[
    "why do i feel tired" := "Fatigue can be caused by dehydration, poor diet, lack of sleep, or conditions like anemia. Drink water, eat balanced meals, and consult a doctor for tests.",
    "how to prevent malaria" := "Use insecticide-treated bed nets, apply mosquito repellent, and clear stagnant water around your home. Visit a clinic for prophylactic medication.",
    "what are symptoms of malaria" := "Symptoms include fever, chills, headache, and fatigue. Consult a doctor for a test if you experience these."
  ]

  const YorubaTable: map<string, string> := map[
    "kini idi ti mo n rilara" := "Rirẹ le jẹ nitori omi kekere ninu ara, ounjẹ ti ko dara, tabi ainidun. Mu omi, jẹun to dara, ki o kan si dokita fun idanwo.",
    "bawo ni mo se le dena iba" := "Lo awọn ibusun ti a fi oogun insecticide ṣe, lo oogun anti-mosquito, ki o si pa omi ti o duro mọ ni ayika ile rẹ. Ṣabẹwo si ile-iwosan fun oogun idena."
  ]

  const HausaTable: map<string, string> := map[
    "me yasa nake jin gajiya" := "Gajiya na iya zama saboda rashin ruwa a jiki, rashin abinci mai kyau, ko rashin barci. Sha ruwa, ci abinci mai kyau, kuma tuntuɓi likita don gwaji."
  ]

  const IgboTable: map<string, string> := map[
    IgboQuestion := "Ike ọgwụgwụ nwere ike ịbụ n’ihi mmiri dị n’ime ahụ, nri adịghị mma, ma ọ bụ enweghị ụra. Drinkụọ mmiri, rie nri kwesịrị ekwesị, ma gaa hụ dọkịta maka nyocha."
  ]

  const PidginTable: map<string, string> := map[
    "why i dey feel tired" := "Tired fit come from no enough water, bad food, or no sleep. Drink water, chop good food, and see doctor for test.",
    "how i fit stop malaria" := "Use net wey dem treat with insecticide, rub mosquito cream, and clear any water wey dey stand near your house. Go clinic for malaria medicine."
  ]

  /** The one Igbo key; it is spelt with the dotted vowels U+1ECD and U+1EE5. */
  const IgboQuestion: string := "gini kpatara m ji ike \U{1ECD}gw\U{1EE5}gw\U{1EE5}"

  /** A character that survives `replace(/[^a-z\s]/g, '')`. */
  predicate Allowed(c: char)
  {
    'a' <= c <= 'z' || IsWhitespace(c)
  }

  predicate AllAllowed(s: string)
  {
    forall i | 0 <= i < |s| :: Allowed(s[i])
  }

  /** Deletes every character outside `a`-`z` and whitespace. The result holds
      exactly the allowed characters of `s`, each as often as in `s`. */
  function Strip(s: string): (r: string)
    ensures AllAllowed(r)
    ensures forall c | Allowed(c) :: multiset(r)[c] == multiset(s)[c]
    ensures IsSubsequence(r, s)
    decreases |s|
  {
    if |s| == 0 then []
    else
      var rest := Strip(s[1..]);
      assert s == [s[0]] + s[1..];
      if Allowed(s[0]) then [s[0]] + rest else rest
  }

  /** The normalised form of a query: lower-case it, then strip it. */
  function Normalize(query: string): (r: string)
    ensures AllAllowed(r)
    ensures forall c | Allowed(c) :: multiset(r)[c] == multiset(ToLower(query))[c]
    ensures IsSubsequence(r, ToLower(query))
    ensures |r| <= |query|
  {
    var r := Strip(ToLower(query));
    SubsequenceNotLonger(r, ToLower(query));
    r
  }

  /** The answer sent when the lookup misses; `language` is interpolated verbatim. */
  function Fallback(language: string): (r: string)
    ensures |r| == |FallbackHead| + |language| + |FallbackTail|
    ensures r[..|FallbackHead|] == FallbackHead
    ensures r[|FallbackHead|..|FallbackHead| + |language|] == language
    ensures r[|FallbackHead| + |language|..] == FallbackTail
  {
    FallbackHead + language + FallbackTail
  }

  /** The apology names the language it was built from: different languages
      never get the same apology. */
  lemma FallbackNamesLanguage(a: string, b: string)
    requires Fallback(a) == Fallback(b)
    ensures a == b
  {
    assert a == Fallback(a)[|FallbackHead|..|FallbackHead| + |a|];
  }

  const FallbackHead: string := "Sorry, I don't have an answer for that in "
  const FallbackTail: string := ". Try rephrasing or consult a healthcare professional."

  /** The lookup hits: the language has a table, the key is in it and its
      entry is truthy (a non-empty string). */
  predicate Hit(table: PhraseTable, language: string, key: string)
  {
    language in table && key in table[language] && table[language][key] != ""
  }

  /** `table[language]?.[Normalize(query)] || Fallback(language)`. */
  function Resolve(table: PhraseTable, language: string, query: string): (r: string)
    ensures Hit(table, language, Normalize(query)) ==> r == table[language][Normalize(query)]
    ensures !Hit(table, language, Normalize(query)) ==> r == Fallback(language)
  {
    var entry :=
      if language in table && Normalize(query) in table[language]
      then Some(table[language][Normalize(query)])
      else None;
    if entry.Some? && entry.value != "" then entry.value else Fallback(language)
  }

  /** The request body of `/api/health-query`; either field may be missing. */
  datatype HealthQueryBody = HealthQueryBody(query: Option<string>, language: Option<string>)

  /** What both `knowledgeBase[language]` and `${language}` see: the code,
      or the text `undefined` when the field is missing. */
  function LanguageKey(language: Option<string>): string
  {
    if language.Some? then language.value else "undefined"
  }

  /** The handler itself, over the phrase table `table` (the server's is
      `KnowledgeBase`). A missing `query` makes the server throw, so the caller
      must supply it; a missing `language` is looked up and interpolated as
      `undefined`. */
  function AnswerHealthQuery(table: PhraseTable, body: HealthQueryBody): (answer: string)
    requires body.query.Some?
    ensures Hit(table, LanguageKey(body.language), Normalize(body.query.value)) ==>
      answer == table[LanguageKey(body.language)][Normalize(body.query.value)]
    ensures !Hit(table, LanguageKey(body.language), Normalize(body.query.value)) ==>
      answer == Fallback(LanguageKey(body.language))
  {
    Resolve(table, LanguageKey(body.language), body.query.value)
  }

  /** With the server's table, a request without a `language` always gets the
      apology naming `undefined`. */
  lemma MissingLanguageFallsBack(query: string)
    ensures AnswerHealthQuery(KnowledgeBase, HealthQueryBody(Some(query), None)) == Fallback("undefined")
  {
    assert "undefined" !in KnowledgeBase;
  }

  /** Stripping leaves a string unchanged exactly when it has nothing to strip. */
  lemma {:induction false} StripFixpoint(s: string)
    ensures Strip(s) == s <==> AllAllowed(s)
    decreases |s|
  {
    if |s| > 0 && AllAllowed(s) {
      assert AllAllowed(s[1..]) by {
        forall i | 0 <= i < |s[1..]| ensures Allowed(s[1..][i]) {
          assert s[1..][i] == s[i + 1];
        }
      }
      StripFixpoint(s[1..]);
    }
  }

  /** A string with nothing allowed in it strips to the empty string. */
  lemma {:induction false} StripRemovesAll(s: string)
    requires forall i | 0 <= i < |s| :: !Allowed(s[i])
    ensures Strip(s) == []
    decreases |s|
  {
    if |s| > 0 {
      StripRemovesAll(s[1..]);
    }
  }

  /** Stripping distributes over concatenation. */
  lemma {:induction false} StripAppend(a: string, b: string)
    ensures Strip(a + b) == Strip(a) + Strip(b)
    decreases |a|
  {
    if |a| == 0 {
      assert a + b == b;
    } else {
      assert (a + b)[1..] == a[1..] + b;
      StripAppend(a[1..], b);
    }
  }

  /** A normalised string is its own normal form, and no other string is. */
  lemma NormalizeFixpoint(s: string)
    ensures Normalize(s) == s <==> AllAllowed(s)
  {
    if AllAllowed(s) {
      assert ToLower(s) == s;
      StripFixpoint(s);
    }
  }

  /** Normalising twice is normalising once. */
  lemma NormalizeIdempotent(query: string)
    ensures Normalize(Normalize(query)) == Normalize(query)
  {
    NormalizeFixpoint(Normalize(query));
  }

  /** Normalisation works character by character, so it distributes over
      concatenation. */
  lemma NormalizeAppend(a: string, b: string)
    ensures Normalize(a + b) == Normalize(a) + Normalize(b)
  {
    ToLowerAppend(a, b);
    StripAppend(ToLower(a), ToLower(b));
  }

  /** Upper-case letters, and any suffix without a letter or whitespace (such
      as a question mark), make no difference to the answer. */
  lemma ResolveIgnoresCaseAndPunctuation(table: PhraseTable, language: string, query: string, suffix: string)
    requires forall i | 0 <= i < |suffix| :: !Allowed(LowerChar(suffix[i]))
    ensures Resolve(table, language, query + suffix) == Resolve(table, language, query)
    ensures Resolve(table, language, ToLower(query)) == Resolve(table, language, query)
  {
    NormalizeAppend(query, suffix);
    StripRemovesAll(ToLower(suffix));
    assert Normalize(query) + [] == Normalize(query);
    assert ToLower(ToLower(query)) == ToLower(query);
  }

  /** The Igbo key contains a letter outside `a`-`z`, so it is not a normal form. */
  lemma IgboQuestionNotNormal()
    ensures !AllAllowed(IgboQuestion)
  {
    assert !Allowed(IgboQuestion[22]);
  }

  /** The Igbo entry can never be served: its key contains letters outside
      `a`-`z`, which normalisation always removes. */
  lemma IgboEntryUnreachable(query: string)
    ensures Resolve(KnowledgeBase, "ig", query) == Fallback("ig")
  {
    var n := Normalize(query);
    IgboQuestionNotNormal();
    assert KnowledgeBase["ig"] == IgboTable;
    assert IgboTable.Keys == {IgboQuestion};
    assert !Hit(KnowledgeBase, "ig", n);
  }

  /** A key made of lower-case letters and single spaces only. */
  predicate PlainWords(s: string)
  {
    forall i | 0 <= i < |s| :: 'a' <= s[i] <= 'z' || s[i] == ' '
  }

  lemma EnglishKeysPlain(key: string)
    requires key in EnglishTable
    ensures PlainWords(key) && EnglishTable[key] != ""
  {
  }

  lemma YorubaKeysPlain(key: string)
    requires key in YorubaTable
    ensures PlainWords(key) && YorubaTable[key] != ""
  {
  }

  lemma HausaKeysPlain(key: string)
    requires key in HausaTable
    ensures PlainWords(key) && HausaTable[key] != ""
  {
  }

  lemma PidginKeysPlain(key: string)
    requires key in PidginTable
    ensures PlainWords(key) && PidginTable[key] != ""
  {
  }

  /** Every key other than the Igbo one is already in normal form, and every
      entry is truthy. */
  lemma KeysNormal(language: string, key: string)
    requires language in KnowledgeBase && key in KnowledgeBase[language]
    requires language != "ig"
    ensures AllAllowed(key)
    ensures KnowledgeBase[language][key] != ""
  {
    if language == "en" {
      assert KnowledgeBase["en"] == EnglishTable;
      EnglishKeysPlain(key);
    } else if language == "yo" {
      assert KnowledgeBase["yo"] == YorubaTable;
      YorubaKeysPlain(key);
    } else if language == "ha" {
      assert KnowledgeBase["ha"] == HausaTable;
      HausaKeysPlain(key);
    } else {
      assert KnowledgeBase["pi"] == PidginTable;
      PidginKeysPlain(key);
    }
  }

  /** Every other entry is served when its own key is asked. */
  lemma EntriesReachable(language: string, key: string)
    requires language in KnowledgeBase && key in KnowledgeBase[language]
    requires language != "ig"
    ensures Resolve(KnowledgeBase, language, key) == KnowledgeBase[language][key]
  {
    KeysNormal(language, key);
    NormalizeFixpoint(key);
  }

  /** A question asked the way a user would type it: any capitalisation of a
      key other than the Igbo one, followed by any punctuation (`?`, `!`, `.`),
      gets that key's entry. */
  lemma TypedQuestionHits(language: string, key: string, typed: string, punctuation: string)
    requires language in KnowledgeBase && key in KnowledgeBase[language]
    requires language != "ig"
    requires ToLower(typed) == key
    requires forall i | 0 <= i < |punctuation| :: !Allowed(LowerChar(punctuation[i]))
    ensures Resolve(KnowledgeBase, language, typed + punctuation) == KnowledgeBase[language][key]
  {
    ResolveIgnoresCaseAndPunctuation(KnowledgeBase, language, typed, punctuation);
    EntriesReachable(language, key);
  }
}
