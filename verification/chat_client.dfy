/** The pure decisions of the chat page: toggling a symptom in the selection,
    choosing the speech-recognition locale, and the guards that decide whether
    a request is sent at all. React state becomes explicit arguments and
    results; the request itself is returned rather than posted. */
module ChatClient {
  import opened Collections
  import opened Text

  /** `prev.filter((s) => s !== symptom)`: every occurrence of `symptom` goes,
      everything else stays, in order. */
  function RemoveAll(prev: seq<string>, symptom: string): (r: seq<string>)
    ensures symptom !in r
    ensures multiset(r) == multiset(prev)[symptom := 0]
    ensures IsSubsequence(r, prev)
    decreases |prev|
  {
    if |prev| == 0 then []
    else
      var rest := RemoveAll(prev[1..], symptom);
      assert prev == [prev[0]] + prev[1..];
      if prev[0] == symptom then rest else [prev[0]] + rest
  }

  /** `handleSymptomSelect`: a symptom already selected is removed (every
      occurrence of it), one not yet selected is appended. */
  function Toggle(prev: seq<string>, symptom: string): (r: seq<string>)
    ensures symptom in r <==> symptom !in prev
    ensures forall other | other != symptom :: other in r <==> other in prev
    ensures symptom !in prev ==> r == prev + [symptom]
    ensures symptom in prev ==> r == RemoveAll(prev, symptom)
  {
    if symptom in prev then
      var r := RemoveAll(prev, symptom);
      assert forall other | other != symptom :: other in r <==> other in multiset(r);
      r
    else prev + [symptom]
  }

  /** Unticking a box keeps the other symptoms in their order and shortens
      the list. */
  lemma ToggleRemovesInOrder(prev: seq<string>, symptom: string)
    requires symptom in prev
    ensures IsSubsequence(Toggle(prev, symptom), prev)
    ensures |Toggle(prev, symptom)| < |prev|
  {
    var r := RemoveAll(prev, symptom);
    SubsequenceNotLonger(r, prev);
    assert multiset(prev)[symptom] > 0;
    assert |multiset(r)| < |multiset(prev)|;
  }

  /** Removing a symptom that is absent changes nothing. */
  lemma {:induction false} RemoveAbsent(prev: seq<string>, symptom: string)
    requires symptom !in prev
    ensures RemoveAll(prev, symptom) == prev
    decreases |prev|
  {
    if |prev| > 0 {
      RemoveAbsent(prev[1..], symptom);
    }
  }

  /** Removing distributes over concatenation. */
  lemma {:induction false} RemoveAppend(a: seq<string>, b: seq<string>, symptom: string)
    ensures RemoveAll(a + b, symptom) == RemoveAll(a, symptom) + RemoveAll(b, symptom)
    decreases |a|
  {
    if |a| == 0 {
      assert a + b == b;
    } else {
      assert (a + b)[1..] == a[1..] + b;
      RemoveAppend(a[1..], b, symptom);
    }
  }

  /** Ticking a box and unticking it again restores the selection exactly. */
  lemma ToggleTwiceRestores(prev: seq<string>, symptom: string)
    requires symptom !in prev
    ensures Toggle(Toggle(prev, symptom), symptom) == prev
  {
    RemoveAppend(prev, [symptom], symptom);
    RemoveAbsent(prev, symptom);
  }

  /** A selection without duplicates keeps having none. */
  lemma ToggleKeepsNoDuplicates(prev: seq<string>, symptom: string)
    requires NoDuplicates(prev)
    ensures NoDuplicates(Toggle(prev, symptom))
  {
    if symptom in prev {
      RemoveKeepsNoDuplicates(prev, symptom);
    }
  }

  lemma {:induction false} RemoveKeepsNoDuplicates(prev: seq<string>, symptom: string)
    requires NoDuplicates(prev)
    ensures NoDuplicates(RemoveAll(prev, symptom))
    decreases |prev|
  {
    if |prev| > 0 {
      RemoveKeepsNoDuplicates(prev[1..], symptom);
      var rest := RemoveAll(prev[1..], symptom);
      assert prev[0] !in prev[1..];
      assert prev[0] !in multiset(prev[1..]);
      assert prev[0] !in multiset(rest);
    }
  }

  /** The selection after a series of checkbox clicks, starting from `start`. */
  function ApplyClicks(start: seq<string>, clicks: seq<string>): seq<string>
    decreases |clicks|
  {
    if |clicks| == 0 then start
    else ApplyClicks(Toggle(start, clicks[0]), clicks[1..])
  }

  /** Clicking never lists a symptom twice in a duplicate-free selection. */
  lemma {:induction false} ClicksKeepNoDuplicates(start: seq<string>, clicks: seq<string>)
    requires NoDuplicates(start)
    ensures NoDuplicates(ApplyClicks(start, clicks))
    decreases |clicks|
  {
    if |clicks| > 0 {
      ToggleKeepsNoDuplicates(start, clicks[0]);
      ClicksKeepNoDuplicates(Toggle(start, clicks[0]), clicks[1..]);
    }
  }

  /** How many times `x` occurs in `s`. */
  function Occurrences(s: seq<string>, x: string): nat
    decreases |s|
  {
    if |s| == 0 then 0
    else (if s[0] == x then 1 else 0) + Occurrences(s[1..], x)
  }

  /** `x` occurs in `s` an odd number of times, counted as a running parity. */
  predicate OddTimes(s: seq<string>, x: string)
    decreases |s|
  {
    if |s| == 0 then false else (s[0] == x) != OddTimes(s[1..], x)
  }

  /** The running parity is the parity of the count. */
  lemma {:induction false} OddTimesIsOddCount(s: seq<string>, x: string)
    ensures OddTimes(s, x) <==> Occurrences(s, x) % 2 == 1
    decreases |s|
  {
    if |s| > 0 {
      OddTimesIsOddCount(s[1..], x);
    }
  }

  /** After a series of clicks, a symptom is selected exactly when it was
      selected before and clicked an even number of times, or was not and
      clicked an odd number of times. */
  lemma {:induction false} ClicksFlipParity(start: seq<string>, clicks: seq<string>, symptom: string)
    ensures symptom in ApplyClicks(start, clicks) <==> (symptom in start) != OddTimes(clicks, symptom)
    decreases |clicks|
  {
    if |clicks| > 0 {
      ClicksFlipParity(Toggle(start, clicks[0]), clicks[1..], symptom);
      ToggleFlips(start, clicks[0], symptom);
    }
  }

  /** Toggling flips the membership of the toggled symptom and of no other. */
  lemma ToggleFlips(prev: seq<string>, toggled: string, symptom: string)
    ensures symptom in Toggle(prev, toggled) <==> (symptom in prev) != (symptom == toggled)
  {
  }

  /** Starting from the empty selection, a symptom is selected exactly when
      its box was clicked an odd number of times, and none is listed twice. */
  lemma ClicksSelectOddCounts(clicks: seq<string>)
    ensures NoDuplicates(ApplyClicks([], clicks))
    ensures forall symptom :: symptom in ApplyClicks([], clicks) <==> Occurrences(clicks, symptom) % 2 == 1
  {
    ClicksKeepNoDuplicates([], clicks);
    forall symptom
      ensures symptom in ApplyClicks([], clicks) <==> Occurrences(clicks, symptom) % 2 == 1
    {
      ClicksFlipParity([], clicks, symptom);
      OddTimesIsOddCount(clicks, symptom);
    }
  }

  /** Browser speech-recognition locales for the languages that have one. */
  const RecognitionLocales: map<string, string> :=
    map["en" := "en-US", "yo" := "yo-NG", "ha" := "ha-NG", "ig" := "ig-NG"]

  /** `recognition.lang`: the locale for the selected language code; every
      other code, Pidgin's `pi` included, listens in US English. Every locale
      is a two-letter language, a dash and a region, and its language is the
      selected one unless it fell back to English. */
  function SpeechLocale(language: string): (locale: string)
    ensures language in RecognitionLocales ==> locale == RecognitionLocales[language]
    ensures language !in RecognitionLocales ==> locale == "en-US"
    ensures |locale| == 5 && locale[2] == '-'
    ensures locale[..2] == language || locale == "en-US"
  {
    if language == "en" then "en-US"
    else if language == "yo" then "yo-NG"
    else if language == "ha" then "ha-NG"
    else if language == "ig" then "ig-NG"
    else "en-US"
  }

  datatype Sender = User | Bot

  datatype ChatMessage = ChatMessage(text: string, sender: Sender)

  /** The requests the page can post. */
  datatype Request =
    | HealthQuery(query: string, language: string)
    | SymptomCheck(symptoms: seq<string>)
    | ClinicSearch(city: string)

  /** The visible transcript right after a handler's synchronous part, and
      the request it posts, if any. */
  datatype Step = Step(messages: seq<ChatMessage>, request: Option<Request>)

  const SelectSymptomPrompt: string := "Please select at least one symptom to proceed."
  const EnterCityPrompt: string := "Please enter a city name."

  /** `handleSend`: blank input does nothing; otherwise the user's text is
      shown and posted, untrimmed, with the selected language. */
  function HandleSend(messages: seq<ChatMessage>, input: string, language: string): (step: Step)
    ensures step.request.None? <==> AllWhitespace(input)
    ensures step.request.None? ==> step.messages == messages
    ensures step.request.Some? ==>
      && step.request.value == HealthQuery(input, language)
      && step.messages == messages + [ChatMessage(input, User)]
  {
    BlankIffAllWhitespace(input);
    if IsBlank(input) then Step(messages, None)
    else Step(messages + [ChatMessage(input, User)], Some(HealthQuery(input, language)))
  }

  /** `submitSymptoms`: an empty selection only adds one bot prompt; any
      other selection is posted as it stands. */
  function SubmitSymptoms(messages: seq<ChatMessage>, symptoms: seq<string>): (step: Step)
    ensures step.request.None? <==> |symptoms| == 0
    ensures step.request.None? ==>
      && |step.messages| == |messages| + 1
      && step.messages[..|messages|] == messages
      && step.messages[|messages|] == ChatMessage(SelectSymptomPrompt, Bot)
    ensures step.request.Some? ==>
      step.messages == messages && step.request.value == SymptomCheck(symptoms)
  {
    if |symptoms| == 0 then Step(messages + [ChatMessage(SelectSymptomPrompt, Bot)], None)
    else Step(messages, Some(SymptomCheck(symptoms)))
  }

  /** `handleClinicFinder`: a blank city only adds one bot prompt; any other
      city is posted untrimmed. */
  function FindClinics(messages: seq<ChatMessage>, city: string): (step: Step)
    ensures step.request.None? <==> AllWhitespace(city)
    ensures step.request.None? ==>
      && |step.messages| == |messages| + 1
      && step.messages[..|messages|] == messages
      && step.messages[|messages|] == ChatMessage(EnterCityPrompt, Bot)
    ensures step.request.Some? ==>
      step.messages == messages && step.request.value == ClinicSearch(city)
  {
    BlankIffAllWhitespace(city);
    if IsBlank(city) then Step(messages + [ChatMessage(EnterCityPrompt, Bot)], None)
    else Step(messages, Some(ClinicSearch(city)))
  }
}
