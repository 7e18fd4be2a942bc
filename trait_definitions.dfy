/** The glossary of `lib/trait-definitions.ts`: a record from trait label to
    its entry, and the lookup `getTraitDefinition`. An entry keeps its `name`,
    the number of usage examples it lists and its related trait labels; the
    wording of the definition and of the examples is display text only. */
module TraitDefinitions {
  import opened Wrappers
  import QuizData

  /** `TraitDefinition`, without its display text. */
  datatype TraitDefinition = TraitDefinition(name: string, exampleCount: nat, relatedTo: seq<string>)

  /** `traitDefinitions[traitName] || null`: the entry stored under exactly the
      key `traitName`, or `None`. Every key of the record stores the entry of
      that name. */
  function GetTraitDefinition(traitName: string): (r: Option<TraitDefinition>)
    ensures r.Some? ==> r.value.name == traitName
    ensures r.Some? ==> r.value.exampleCount > 0 && r.value.relatedTo != []
  {
    match traitName
    case "Persistent" => Some(TraitDefinition("Persistent", 3, ["Determined", "Patient", "Goal-oriented"]))
    case "Adventurous" => Some(TraitDefinition("Adventurous", 3, ["Risk taker", "Curious", "Independent"]))
    case "Thorough" => Some(TraitDefinition("Thorough", 3, ["Meticulous", "Accurate", "Procedural"]))
    case "Patient" => Some(TraitDefinition("Patient", 3, ["Persistent", "Peaceful", "Dependable"]))
    case "Powerful" => Some(TraitDefinition("Powerful", 3, ["Influential", "Strong willed", "Assertive"]))
    case "Charismatic" => Some(TraitDefinition("Charismatic", 3, ["Talkative", "Enthusiastic", "Social"]))
    case "Logical" => Some(TraitDefinition("Logical", 3, ["Practical", "Accurate", "Conventional"]))
    case "Sincere" => Some(TraitDefinition("Sincere", 3, ["Respectful", "Charitable", "Idealistic"]))
    case "Motivated" => Some(TraitDefinition("Motivated", 3, ["Driven", "Goal oriented", "Achieving"]))
    case "Optimistic" => Some(TraitDefinition("Optimistic", 3, ["Enthusiastic", "Cheerful", "People focused"]))
    case "Practical" => Some(TraitDefinition("Practical", 3, ["Logical", "Procedural", "Dependable"]))
    case "Accurate" => Some(TraitDefinition("Accurate", 3, ["Thorough", "Meticulous", "Logical"]))
    case "Competitive" => Some(TraitDefinition("Competitive", 3, ["Driven", "Achieving", "Strong willed"]))
    case "Demanding" => Some(TraitDefinition("Demanding", 3, ["Perfectionist", "Achieving", "Strong willed"]))
    case "Risk taker" => Some(TraitDefinition("Risk taker", 3, ["Adventurous", "Impulsive", "Independent"]))
    case "Serious" => Some(TraitDefinition("Serious", 3, ["Respectful", "Conventional", "Procedural"]))
    case "Compassionate" => Some(TraitDefinition("Compassionate", 3, ["Charitable", "People focused", "Selfless"]))
    case "Driven" => Some(TraitDefinition("Driven", 3, ["Motivated", "Competitive", "Goal oriented"]))
    case "Curious" => Some(TraitDefinition("Curious", 3, ["Adventurous", "Seeking", "Independent"]))
    case "Passionate" => Some(TraitDefinition("Passionate", 3, ["Enthusiastic", "Motivated", "Idealistic"]))
    case "Talkative" => Some(TraitDefinition("Talkative", 3, ["Social", "Charismatic", "Enthusiastic"]))
    case "Assertive" => Some(TraitDefinition("Assertive", 3, ["Powerful", "Strong willed", "Forward"]))
    case "Independent" => Some(TraitDefinition("Independent", 3, ["Risk taker", "Strong willed", "Seeking"]))
    case "Enthusiastic" => Some(TraitDefinition("Enthusiastic", 3, ["Optimistic", "Passionate", "Cheerful"]))
    case "Idealistic" => Some(TraitDefinition("Idealistic", 3, ["Sincere", "Charitable", "Selfless"]))
    case "Charitable" => Some(TraitDefinition("Charitable", 3, ["Compassionate", "Selfless", "People focused"]))
    case "Peaceful" => Some(TraitDefinition("Peaceful", 3, ["Patient", "Respectful", "Conventional"]))
    case "Strong willed" => Some(TraitDefinition("Strong willed", 3, ["Assertive", "Independent", "Demanding"]))
    case "Respectful" => Some(TraitDefinition("Respectful", 3, ["Sincere", "Peaceful", "Conventional"]))
    case "Cheerful" => Some(TraitDefinition("Cheerful", 3, ["Optimistic", "Enthusiastic", "Social"]))
    case "Goal oriented" => Some(TraitDefinition("Goal oriented", 3, ["Driven", "Achieving", "Procedural"]))
    case "Procedural" => Some(TraitDefinition("Procedural", 3, ["Thorough", "Conventional", "Meticulous"]))
    case "Selfless" => Some(TraitDefinition("Selfless", 3, ["Charitable", "Compassionate", "People focused"]))
    case "People focused" => Some(TraitDefinition("People focused", 3, ["Social", "Compassionate", "Charitable"]))
    case "Achieving" => Some(TraitDefinition("Achieving", 3, ["Goal oriented", "Driven", "Competitive"]))
    case "Meticulous" => Some(TraitDefinition("Meticulous", 3, ["Thorough", "Accurate", "Procedural"]))
    case "Seeking" => Some(TraitDefinition("Seeking", 3, ["Curious", "Independent", "Adventurous"]))
    case "Conventional" => Some(TraitDefinition("Conventional", 3, ["Procedural", "Respectful", "Practical"]))
    case "Social" => Some(TraitDefinition("Social", 3, ["Talkative", "People focused", "Charismatic"]))
    case "Dependable" => Some(TraitDefinition("Dependable", 3, ["Patient", "Practical", "Conventional"]))
    case "Influential" => Some(TraitDefinition("Influential", 3, ["Powerful", "Charismatic", "Assertive"]))
    case "Impulsive" => Some(TraitDefinition("Impulsive", 3, ["Risk taker", "Adventurous", "Passionate"]))
    case "Perfectionist" => Some(TraitDefinition("Perfectionist", 3, ["Demanding", "Meticulous", "Achieving"]))
    case "Forward" => Some(TraitDefinition("Forward", 3, ["Assertive", "Strong willed", "Risk taker"]))
    case "Supportive" => Some(TraitDefinition("Supportive", 3, ["Compassionate", "People focused", "Charitable"]))
    case "Analytical" => Some(TraitDefinition("Analytical", 3, ["Logical", "Thorough", "Seeking"]))
    case _ => None
  }

  // One lemma per key of the record: the key is defined, and its entry lists
  // at least one example and at least one related trait.

  lemma PersistentDefined()
    ensures var d := GetTraitDefinition("Persistent"); d.Some? && d.value.exampleCount > 0 && d.value.relatedTo != []
  {
  }

  lemma AdventurousDefined()
    ensures var d := GetTraitDefinition("Adventurous"); d.Some? && d.value.exampleCount > 0 && d.value.relatedTo != []
  {
  }

  lemma ThoroughDefined()
    ensures var d := GetTraitDefinition("Thorough"); d.Some? && d.value.exampleCount > 0 && d.value.relatedTo != []
  {
  }

  lemma PatientDefined()
    ensures var d := GetTraitDefinition("Patient"); d.Some? && d.value.exampleCount > 0 && d.value.relatedTo != []
  {
  }

  lemma PowerfulDefined()
    ensures var d := GetTraitDefinition("Powerful"); d.Some? && d.value.exampleCount > 0 && d.value.relatedTo != []
  {
  }

  lemma CharismaticDefined()
    ensures var d := GetTraitDefinition("Charismatic"); d.Some? && d.value.exampleCount > 0 && d.value.relatedTo != []
  {
  }

  lemma LogicalDefined()
    ensures var d := GetTraitDefinition("Logical"); d.Some? && d.value.exampleCount > 0 && d.value.relatedTo != []
  {
  }

  lemma SincereDefined()
    ensures var d := GetTraitDefinition("Sincere"); d.Some? && d.value.exampleCount > 0 && d.value.relatedTo != []
  {
  }

  lemma MotivatedDefined()
    ensures var d := GetTraitDefinition("Motivated"); d.Some? && d.value.exampleCount > 0 && d.value.relatedTo != []
  {
  }

  lemma OptimisticDefined()
    ensures var d := GetTraitDefinition("Optimistic"); d.Some? && d.value.exampleCount > 0 && d.value.relatedTo != []
  {
  }

  lemma PracticalDefined()
    ensures var d := GetTraitDefinition("Practical"); d.Some? && d.value.exampleCount > 0 && d.value.relatedTo != []
  {
  }

  lemma AccurateDefined()
    ensures var d := GetTraitDefinition("Accurate"); d.Some? && d.value.exampleCount > 0 && d.value.relatedTo != []
  {
  }

  lemma CompetitiveDefined()
    ensures var d := GetTraitDefinition("Competitive"); d.Some? && d.value.exampleCount > 0 && d.value.relatedTo != []
  {
  }

  lemma DemandingDefined()
    ensures var d := GetTraitDefinition("Demanding"); d.Some? && d.value.exampleCount > 0 && d.value.relatedTo != []
  {
  }

  lemma RiskTakerDefined()
    ensures var d := GetTraitDefinition("Risk taker"); d.Some? && d.value.exampleCount > 0 && d.value.relatedTo != []
  {
  }

  lemma SeriousDefined()
    ensures var d := GetTraitDefinition("Serious"); d.Some? && d.value.exampleCount > 0 && d.value.relatedTo != []
  {
  }

  lemma CompassionateDefined()
    ensures var d := GetTraitDefinition("Compassionate"); d.Some? && d.value.exampleCount > 0 && d.value.relatedTo != []
  {
  }

  lemma DrivenDefined()
    ensures var d := GetTraitDefinition("Driven"); d.Some? && d.value.exampleCount > 0 && d.value.relatedTo != []
  {
  }

  lemma CuriousDefined()
    ensures var d := GetTraitDefinition("Curious"); d.Some? && d.value.exampleCount > 0 && d.value.relatedTo != []
  {
  }

  lemma PassionateDefined()
    ensures var d := GetTraitDefinition("Passionate"); d.Some? && d.value.exampleCount > 0 && d.value.relatedTo != []
  {
  }

  lemma TalkativeDefined()
    ensures var d := GetTraitDefinition("Talkative"); d.Some? && d.value.exampleCount > 0 && d.value.relatedTo != []
  {
  }

  lemma AssertiveDefined()
    ensures var d := GetTraitDefinition("Assertive"); d.Some? && d.value.exampleCount > 0 && d.value.relatedTo != []
  {
  }

  lemma IndependentDefined()
    ensures var d := GetTraitDefinition("Independent"); d.Some? && d.value.exampleCount > 0 && d.value.relatedTo != []
  {
  }

  lemma EnthusiasticDefined()
    ensures var d := GetTraitDefinition("Enthusiastic"); d.Some? && d.value.exampleCount > 0 && d.value.relatedTo != []
  {
  }

  lemma IdealisticDefined()
    ensures var d := GetTraitDefinition("Idealistic"); d.Some? && d.value.exampleCount > 0 && d.value.relatedTo != []
  {
  }

  lemma CharitableDefined()
    ensures var d := GetTraitDefinition("Charitable"); d.Some? && d.value.exampleCount > 0 && d.value.relatedTo != []
  {
  }

  lemma PeacefulDefined()
    ensures var d := GetTraitDefinition("Peaceful"); d.Some? && d.value.exampleCount > 0 && d.value.relatedTo != []
  {
  }

  lemma StrongWilledDefined()
    ensures var d := GetTraitDefinition("Strong willed"); d.Some? && d.value.exampleCount > 0 && d.value.relatedTo != []
  {
  }

  lemma RespectfulDefined()
    ensures var d := GetTraitDefinition("Respectful"); d.Some? && d.value.exampleCount > 0 && d.value.relatedTo != []
  {
  }

  lemma CheerfulDefined()
    ensures var d := GetTraitDefinition("Cheerful"); d.Some? && d.value.exampleCount > 0 && d.value.relatedTo != []
  {
  }

  lemma GoalOrientedDefined()
    ensures var d := GetTraitDefinition("Goal oriented"); d.Some? && d.value.exampleCount > 0 && d.value.relatedTo != []
  {
  }

  lemma ProceduralDefined()
    ensures var d := GetTraitDefinition("Procedural"); d.Some? && d.value.exampleCount > 0 && d.value.relatedTo != []
  {
  }

  lemma SelflessDefined()
    ensures var d := GetTraitDefinition("Selfless"); d.Some? && d.value.exampleCount > 0 && d.value.relatedTo != []
  {
  }

  lemma PeopleFocusedDefined()
    ensures var d := GetTraitDefinition("People focused"); d.Some? && d.value.exampleCount > 0 && d.value.relatedTo != []
  {
  }

  lemma AchievingDefined()
    ensures var d := GetTraitDefinition("Achieving"); d.Some? && d.value.exampleCount > 0 && d.value.relatedTo != []
  {
  }

  lemma MeticulousDefined()
    ensures var d := GetTraitDefinition("Meticulous"); d.Some? && d.value.exampleCount > 0 && d.value.relatedTo != []
  {
  }

  lemma SeekingDefined()
    ensures var d := GetTraitDefinition("Seeking"); d.Some? && d.value.exampleCount > 0 && d.value.relatedTo != []
  {
  }

  lemma ConventionalDefined()
    ensures var d := GetTraitDefinition("Conventional"); d.Some? && d.value.exampleCount > 0 && d.value.relatedTo != []
  {
  }

  lemma SocialDefined()
    ensures var d := GetTraitDefinition("Social"); d.Some? && d.value.exampleCount > 0 && d.value.relatedTo != []
  {
  }

  lemma DependableDefined()
    ensures var d := GetTraitDefinition("Dependable"); d.Some? && d.value.exampleCount > 0 && d.value.relatedTo != []
  {
  }

  lemma InfluentialDefined()
    ensures var d := GetTraitDefinition("Influential"); d.Some? && d.value.exampleCount > 0 && d.value.relatedTo != []
  {
  }

  lemma ImpulsiveDefined()
    ensures var d := GetTraitDefinition("Impulsive"); d.Some? && d.value.exampleCount > 0 && d.value.relatedTo != []
  {
  }

  lemma PerfectionistDefined()
    ensures var d := GetTraitDefinition("Perfectionist"); d.Some? && d.value.exampleCount > 0 && d.value.relatedTo != []
  {
  }

  lemma ForwardDefined()
    ensures var d := GetTraitDefinition("Forward"); d.Some? && d.value.exampleCount > 0 && d.value.relatedTo != []
  {
  }

  lemma SupportiveDefined()
    ensures var d := GetTraitDefinition("Supportive"); d.Some? && d.value.exampleCount > 0 && d.value.relatedTo != []
  {
  }

  lemma AnalyticalDefined()
    ensures var d := GetTraitDefinition("Analytical"); d.Some? && d.value.exampleCount > 0 && d.value.relatedTo != []
  {
  }

  /** A property of every member of a list, from a property of each position. */
  lemma AllHold(labels: seq<string>, holds: string -> bool)
    requires forall i :: 0 <= i < |labels| ==> holds(labels[i])
    ensures forall t :: t in labels ==> holds(t)
  {
    forall t | t in labels ensures holds(t) {
      var i :| 0 <= i < |labels| && labels[i] == t;
    }
  }

  lemma QuizTraitsLine1Defined()
    ensures forall t :: t in ["Persistent", "Adventurous", "Thorough", "Patient", "Powerful", "Charismatic", "Logical", "Sincere"] ==> GetTraitDefinition(t).Some?
  {
    PersistentDefined(); AdventurousDefined(); ThoroughDefined(); PatientDefined(); PowerfulDefined(); CharismaticDefined(); LogicalDefined(); SincereDefined();
    AllHold(["Persistent", "Adventurous", "Thorough", "Patient", "Powerful", "Charismatic", "Logical", "Sincere"], t => GetTraitDefinition(t).Some?);
  }

  lemma QuizTraitsLine2Defined()
    ensures forall t :: t in ["Motivated", "Optimistic", "Practical", "Accurate", "Competitive", "Demanding", "Risk taker", "Serious"] ==> GetTraitDefinition(t).Some?
  {
    MotivatedDefined(); OptimisticDefined(); PracticalDefined(); AccurateDefined(); CompetitiveDefined(); DemandingDefined(); RiskTakerDefined(); SeriousDefined();
    AllHold(["Motivated", "Optimistic", "Practical", "Accurate", "Competitive", "Demanding", "Risk taker", "Serious"], t => GetTraitDefinition(t).Some?);
  }

  lemma QuizTraitsLine3Defined()
    ensures forall t :: t in ["Compassionate", "Driven", "Curious", "Passionate", "Talkative", "Assertive", "Independent", "Enthusiastic"] ==> GetTraitDefinition(t).Some?
  {
    CompassionateDefined(); DrivenDefined(); CuriousDefined(); PassionateDefined(); TalkativeDefined(); AssertiveDefined(); IndependentDefined(); EnthusiasticDefined();
    AllHold(["Compassionate", "Driven", "Curious", "Passionate", "Talkative", "Assertive", "Independent", "Enthusiastic"], t => GetTraitDefinition(t).Some?);
  }

  lemma QuizTraitsLine4Defined()
    ensures forall t :: t in ["Idealistic", "Charitable", "Peaceful", "Strong willed", "Respectful", "Cheerful", "Goal oriented", "Procedural"] ==> GetTraitDefinition(t).Some?
  {
    IdealisticDefined(); CharitableDefined(); PeacefulDefined(); StrongWilledDefined(); RespectfulDefined(); CheerfulDefined(); GoalOrientedDefined(); ProceduralDefined();
    AllHold(["Idealistic", "Charitable", "Peaceful", "Strong willed", "Respectful", "Cheerful", "Goal oriented", "Procedural"], t => GetTraitDefinition(t).Some?);
  }

  lemma QuizTraitsLine5Defined()
    ensures forall t :: t in ["Selfless", "People focused", "Achieving", "Meticulous", "Seeking", "Conventional", "Social", "Dependable"] ==> GetTraitDefinition(t).Some?
  {
    SelflessDefined(); PeopleFocusedDefined(); AchievingDefined(); MeticulousDefined(); SeekingDefined(); ConventionalDefined(); SocialDefined(); DependableDefined();
    AllHold(["Selfless", "People focused", "Achieving", "Meticulous", "Seeking", "Conventional", "Social", "Dependable"], t => GetTraitDefinition(t).Some?);
  }

  lemma QuizTraitsLine6Defined()
    ensures forall t :: t in ["Influential", "Impulsive", "Perfectionist", "Forward", "Supportive", "Analytical"] ==> GetTraitDefinition(t).Some?
  {
    InfluentialDefined(); ImpulsiveDefined(); PerfectionistDefined(); ForwardDefined(); SupportiveDefined(); AnalyticalDefined();
    AllHold(["Influential", "Impulsive", "Perfectionist", "Forward", "Supportive", "Analytical"], t => GetTraitDefinition(t).Some?);
  }

  /** Every label of the trait-selection screen has a glossary entry. */
  lemma QuizTraitsDefined()
    ensures forall t :: t in QuizData.QuizTraits ==> GetTraitDefinition(t).Some?
  {
    QuizTraitsLine1Defined();
    QuizTraitsLine2Defined();
    QuizTraitsLine3Defined();
    QuizTraitsLine4Defined();
    QuizTraitsLine5Defined();
    QuizTraitsLine6Defined();
  }

  /** The glossary's keys are exactly the labels of the trait-selection screen:
      the lookup finds an entry for those labels and gives `None` for every
      other name. */
  lemma GlossaryIsQuizTraits(traitName: string)
    ensures GetTraitDefinition(traitName).Some? <==> traitName in QuizData.QuizTraits
  {
    QuizTraitsDefined();
  }

  /** A text that begins with an ASCII capital. */
  predicate Capitalised(t: string) {
    |t| > 0 && 'A' <= t[0] <= 'Z'
  }

  /** Every label of the trait-selection screen begins with a capital. */
  lemma QuizTraitsCapitalised()
    ensures forall t :: t in QuizData.QuizTraits ==> Capitalised(t)
  {
  }

  /** No answer text of the question bank begins with a capital. */
  lemma BankOptionsLowerCase(k: nat)
    requires k < |QuizData.PersonalityQuestions|
    ensures forall o :: o in QuizData.PersonalityQuestions[k].options ==> !Capitalised(o)
  {
  }

  /** The lookup is case-sensitive: no answer text of the question bank is a
      key, for example `patient`, though its capitalised form `Patient` is. */
  lemma LookupIsCaseSensitive(k: nat, option: string)
    requires k < |QuizData.PersonalityQuestions| && option in QuizData.PersonalityQuestions[k].options
    ensures GetTraitDefinition(option) == None
    ensures GetTraitDefinition("patient") == None
    ensures GetTraitDefinition("Patient").Some?
  {
    GlossaryIsQuizTraits(option);
    QuizTraitsCapitalised();
    BankOptionsLowerCase(k);
    PatientDefined();
  }

  /** A related label need not be a key: `Persistent` lists `Determined` and
      `Goal-oriented`, neither of which is defined (`Goal oriented` is). */
  lemma RelatedLabelsNeedNotBeKeys()
    ensures GetTraitDefinition("Persistent").Some?
    ensures "Determined" in GetTraitDefinition("Persistent").value.relatedTo
    ensures GetTraitDefinition("Determined") == None
    ensures GetTraitDefinition("Goal-oriented") == None && GetTraitDefinition("Goal oriented").Some?
  {
    PersistentDefined();
    GoalOrientedDefined();
  }
}
