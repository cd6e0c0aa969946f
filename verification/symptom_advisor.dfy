/** The `/api/symptom-checker` handler: an ordered chain of membership tests
    over the submitted symptom tokens, the first that fires choosing the
    advice, with a catch-all at the end. */
module SymptomAdvisor {
  import opened Collections

  const Prefix: string := "Based on your symptoms: "

  const Malaria: string := "You may have malaria. Please visit a clinic for a test."
  const ViralOrMalaria: string := "You might have a viral infection or malaria. Rest, stay hydrated, and see a doctor for a test."
  const StressOrDehydration: string := "This could be due to stress, dehydration, or an underlying condition. Drink water, rest, and consult a doctor if it persists."
  const Infection: string := "Fever could indicate an infection. Rest, stay hydrated, and see a doctor."
  const Tiredness: string := "Fatigue might be due to lack of sleep, poor diet, or anemia. Ensure you rest and eat well, and see a doctor if it continues."
  const Unclear: string := "Your symptoms are unclear. Please provide more details or consult a doctor."

  /** The six pieces of advice the handler can append. */
  const Advice: set<string> := {Malaria, ViralOrMalaria, StressOrDehydration, Infection, Tiredness, Unclear}

  /** One `if`: the rule fires when every token it needs was submitted. */
  datatype Rule = Rule(needs: set<string>, advice: string)

  /** An ordered list of rules and the advice of the final `else`. */
  datatype RuleChain = RuleChain(rules: seq<Rule>, otherwise: string)

  predicate Fires(rule: Rule, symptoms: seq<string>)
  {
    forall t | t in rule.needs :: t in symptoms
  }

  /** The handler's chain, in the order its branches are tested. */
  const Chain: RuleChain := RuleChain(
    [ Rule({"fever", "chills"}, Malaria),
      Rule({"fever", "headache"}, ViralOrMalaria),
      Rule({"fatigue", "headache"}, StressOrDehydration),
      Rule({"fever"}, Infection),
      Rule({"fatigue"}, Tiredness) ],
    Unclear)

  /** The position of the first rule that fires, if any. */
  function FirstFiring(rules: seq<Rule>, symptoms: seq<string>): (r: Option<nat>)
    ensures r.Some? ==> r.value < |rules| && Fires(rules[r.value], symptoms)
    ensures r.Some? ==> forall j | 0 <= j < r.value :: !Fires(rules[j], symptoms)
    ensures r.None? <==> forall j | 0 <= j < |rules| :: !Fires(rules[j], symptoms)
    decreases |rules|
  {
    if |rules| == 0 then None
    else if Fires(rules[0], symptoms) then Some(0)
    else
      match FirstFiring(rules[1..], symptoms)
      case None => None
      case Some(k) => Some(k + 1)
  }

  /** First-match evaluation: the advice of the earliest rule that fires, or
      the catch-all when none does. */
  function Evaluate(chain: RuleChain, symptoms: seq<string>): (advice: string)
    ensures (exists k | 0 <= k < |chain.rules| ::
               && Fires(chain.rules[k], symptoms)
               && (forall j | 0 <= j < k :: !Fires(chain.rules[j], symptoms))
               && advice == chain.rules[k].advice)
         || ((forall j | 0 <= j < |chain.rules| :: !Fires(chain.rules[j], symptoms))
               && advice == chain.otherwise)
  {
    match FirstFiring(chain.rules, symptoms)
    case Some(k) => chain.rules[k].advice
    case None => chain.otherwise
  }

  /** The handler's answer: the prefix followed by exactly one of the six
      pieces of advice. */
  function CheckSymptoms(symptoms: seq<string>): (answer: string)
    ensures |answer| > |Prefix| && answer[..|Prefix|] == Prefix
    ensures answer[|Prefix|..] in Advice
  {
    var advice := Evaluate(Chain, symptoms);
    assert advice in Advice;
    Prefix + advice
  }

  /** The handler's `if`/`else if` chain, written out branch by branch. */
  function IfElseAdvice(symptoms: seq<string>): string
  {
    if "fever" in symptoms && "chills" in symptoms then Malaria
    else if "fever" in symptoms && "headache" in symptoms then ViralOrMalaria
    else if "fatigue" in symptoms && "headache" in symptoms then StressOrDehydration
    else if "fever" in symptoms then Infection
    else if "fatigue" in symptoms then Tiredness
    else Unclear
  }

  /** The rule list encodes the handler's branches in the handler's order. */
  lemma ChainIsIfElse(symptoms: seq<string>)
    ensures CheckSymptoms(symptoms) == Prefix + IfElseAdvice(symptoms)
  {
    var rules := Chain.rules;
    var f, c, h, t := "fever" in symptoms, "chills" in symptoms, "headache" in symptoms, "fatigue" in symptoms;
    assert Fires(rules[0], symptoms) <==> f && c;
    assert Fires(rules[1], symptoms) <==> f && h;
    assert Fires(rules[2], symptoms) <==> t && h;
    assert Fires(rules[3], symptoms) <==> f;
    assert Fires(rules[4], symptoms) <==> t;
  }

  /** The six pieces of advice are pairwise different, so the answer tells
      which branch was taken. */
  lemma AdviceDistinct()
    ensures |Advice| == 6
  {
    assert Malaria[3] != ViralOrMalaria[3] || |Malaria| != |ViralOrMalaria|;
  }

  /** Which advice is given, as an if-and-only-if for each branch. */
  lemma BranchConditions(symptoms: seq<string>)
    ensures CheckSymptoms(symptoms) == Prefix + Malaria
        <==> "fever" in symptoms && "chills" in symptoms
    ensures CheckSymptoms(symptoms) == Prefix + ViralOrMalaria
        <==> "fever" in symptoms && "headache" in symptoms && "chills" !in symptoms
    ensures CheckSymptoms(symptoms) == Prefix + StressOrDehydration
        <==> "fatigue" in symptoms && "headache" in symptoms && "fever" !in symptoms
    ensures CheckSymptoms(symptoms) == Prefix + Infection
        <==> "fever" in symptoms && "chills" !in symptoms && "headache" !in symptoms
    ensures CheckSymptoms(symptoms) == Prefix + Tiredness
        <==> "fatigue" in symptoms && "fever" !in symptoms && "headache" !in symptoms
    ensures CheckSymptoms(symptoms) == Prefix + Unclear
        <==> "fever" !in symptoms && "fatigue" !in symptoms
  {
    ChainIsIfElse(symptoms);
    AdviceDistinct();
  }

  /** Priority: `fever` with `chills` means malaria, whatever else is listed. */
  lemma MalariaTakesPriority(symptoms: seq<string>)
    requires "fever" in symptoms && "chills" in symptoms
    ensures CheckSymptoms(symptoms) == Prefix + Malaria
  {
    ChainIsIfElse(symptoms);
  }

  /** The two lists agree on which of the four known symptoms they contain. */
  predicate SameSelection(a: seq<string>, b: seq<string>)
  {
    && ("fever" in a <==> "fever" in b)
    && ("chills" in a <==> "chills" in b)
    && ("headache" in a <==> "headache" in b)
    && ("fatigue" in a <==> "fatigue" in b)
  }

  /** Only membership of the four known symptoms matters: order, duplicates
      and unknown tokens never change the answer. */
  lemma MembershipOnly(a: seq<string>, b: seq<string>)
    requires SameSelection(a, b)
    ensures CheckSymptoms(a) == CheckSymptoms(b)
  {
    ChainIsIfElse(a);
    ChainIsIfElse(b);
  }

  /** Reordering or repeating tokens keeps the answer: lists holding the same
      tokens get the same advice. */
  lemma OrderAndDuplicatesIgnored(a: seq<string>, b: seq<string>)
    requires forall t :: t in a <==> t in b
    ensures CheckSymptoms(a) == CheckSymptoms(b)
  {
    MembershipOnly(a, b);
  }

  /** An unknown token added anywhere is ignored. */
  lemma UnknownTokenIgnored(a: seq<string>, b: seq<string>, token: string)
    requires token !in {"fever", "chills", "headache", "fatigue"}
    ensures CheckSymptoms(a + [token] + b) == CheckSymptoms(a + b)
  {
    MembershipOnly(a + [token] + b, a + b);
  }

  /** Nothing, `headache` alone and `chills` alone are all unclear. */
  lemma UnclearSelections()
    ensures CheckSymptoms([]) == Prefix + Unclear
    ensures CheckSymptoms(["headache"]) == Prefix + Unclear
    ensures CheckSymptoms(["chills"]) == Prefix + Unclear
    ensures CheckSymptoms(["headache", "chills"]) == Prefix + Unclear
  {
    BranchConditions([]);
    BranchConditions(["headache"]);
    BranchConditions(["chills"]);
    BranchConditions(["headache", "chills"]);
  }
}
