/** Facts about the static tables of the quiz: every answer text offered by
    the question bank is a key of the trait-to-animal table once normalised,
    so no answer of the quiz as shipped goes unmapped. */
module QuizDataChecks {
  import opened Wrappers
  import opened Text
  import opened QuizData

  /** No capital letter at position `i` or later. */
  predicate NoUpperFrom(s: string, i: nat)
    decreases |s| - i
  {
    i >= |s| || (!IsUpper(s[i]) && NoUpperFrom(s, i + 1))
  }

  lemma {:induction false} NoUpperAll(s: string, i: nat)
    requires NoUpperFrom(s, i)
    ensures forall j :: i <= j < |s| ==> !IsUpper(s[j])
    decreases |s| - i
  {
    if i < |s| {
      NoUpperAll(s, i + 1);
    }
  }

  /** Text already in the shape of a table key: lower case, no white space at either end. */
  predicate KeyShaped(s: string) {
    NoUpperFrom(s, 0) && (s == [] || (!IsSpace(s[0]) && !IsSpace(s[|s| - 1])))
  }

  /** Normalising leaves a key-shaped text unchanged. */
  lemma NormalizeKeyShaped(s: string)
    requires KeyShaped(s)
    ensures NormalizeTrait(s) == s
  {
    NoUpperAll(s, 0);
    forall c | c in s ensures !IsUpper(c) {
      var k :| 0 <= k < |s| && s[k] == c;
    }
    LowerNoUpper(s);
    TrimFixed(s);
  }

  /** A key-shaped key of the table votes for its animal as it stands. */
  lemma OptionMapped(option: string)
    requires KeyShaped(option) && TraitToAnimal(option).Some?
    ensures AnimalForOption(option) == TraitToAnimal(option)
  {
    NormalizeKeyShaped(option);
  }

  /** A property of each of four answers is a property of all answers of the question. */
  lemma AllFour(options: seq<string>, a: string, b: string, c: string, d: string, holds: string -> bool)
    requires options == [a, b, c, d] && holds(a) && holds(b) && holds(c) && holds(d)
    ensures forall o :: o in options ==> holds(o)
  {
  }

  // One lemma per distinct answer text: the animal it votes for.

  lemma PatientKey() ensures TraitToAnimal("patient") == Some(Dove) { }
  lemma PatientVotes() ensures AnimalForOption("patient") == Some(Dove) { PatientKey(); NormalizeKeyShaped("patient"); }
  lemma LogicalKey() ensures TraitToAnimal("logical") == Some(Owl) { }
  lemma LogicalVotes() ensures AnimalForOption("logical") == Some(Owl) { LogicalKey(); NormalizeKeyShaped("logical"); }
  lemma EnthusiasticKey() ensures TraitToAnimal("enthusiastic") == Some(Peacock) { }
  lemma EnthusiasticVotes() ensures AnimalForOption("enthusiastic") == Some(Peacock) { EnthusiasticKey(); NormalizeKeyShaped("enthusiastic"); }
  lemma BoldKey() ensures TraitToAnimal("bold") == Some(Shark) { }
  lemma BoldVotes() ensures AnimalForOption("bold") == Some(Shark) { BoldKey(); NormalizeKeyShaped("bold"); }
  lemma SupportiveKey() ensures TraitToAnimal("supportive") == Some(Dove) { }
  lemma SupportiveVotes() ensures AnimalForOption("supportive") == Some(Dove) { SupportiveKey(); NormalizeKeyShaped("supportive"); }
  lemma ThoroughKey() ensures TraitToAnimal("thorough") == Some(Owl) { }
  lemma ThoroughVotes() ensures AnimalForOption("thorough") == Some(Owl) { ThoroughKey(); NormalizeKeyShaped("thorough"); }
  lemma OptimisticKey() ensures TraitToAnimal("optimistic") == Some(Peacock) { }
  lemma OptimisticVotes() ensures AnimalForOption("optimistic") == Some(Peacock) { OptimisticKey(); NormalizeKeyShaped("optimistic"); }
  lemma DecisiveKey() ensures TraitToAnimal("decisive") == Some(Shark) { }
  lemma DecisiveVotes() ensures AnimalForOption("decisive") == Some(Shark) { DecisiveKey(); NormalizeKeyShaped("decisive"); }
  lemma PeacefulKey() ensures TraitToAnimal("peaceful") == Some(Dove) { }
  lemma PeacefulVotes() ensures AnimalForOption("peaceful") == Some(Dove) { PeacefulKey(); NormalizeKeyShaped("peaceful"); }
  lemma AnalyticalKey() ensures TraitToAnimal("analytical") == Some(Owl) { }
  lemma AnalyticalVotes() ensures AnimalForOption("analytical") == Some(Owl) { AnalyticalKey(); NormalizeKeyShaped("analytical"); }
  lemma TalkativeKey() ensures TraitToAnimal("talkative") == Some(Peacock) { }
  lemma TalkativeVotes() ensures AnimalForOption("talkative") == Some(Peacock) { TalkativeKey(); NormalizeKeyShaped("talkative"); }
  lemma DirectKey() ensures TraitToAnimal("direct") == Some(Shark) { }
  lemma DirectVotes() ensures AnimalForOption("direct") == Some(Shark) { DirectKey(); NormalizeKeyShaped("direct"); }
  lemma FriendlyKey() ensures TraitToAnimal("friendly") == Some(Dove) { }
  lemma FriendlyVotes() ensures AnimalForOption("friendly") == Some(Dove) { FriendlyKey(); NormalizeKeyShaped("friendly"); }
  lemma SeriousKey() ensures TraitToAnimal("serious") == Some(Owl) { }
  lemma SeriousVotes() ensures AnimalForOption("serious") == Some(Owl) { SeriousKey(); NormalizeKeyShaped("serious"); }
  lemma CharismaticKey() ensures TraitToAnimal("charismatic") == Some(Peacock) { }
  lemma CharismaticVotes() ensures AnimalForOption("charismatic") == Some(Peacock) { CharismaticKey(); NormalizeKeyShaped("charismatic"); }
  lemma DominantKey() ensures TraitToAnimal("dominant") == Some(Shark) { }
  lemma DominantVotes() ensures AnimalForOption("dominant") == Some(Shark) { DominantKey(); NormalizeKeyShaped("dominant"); }
  lemma CompassionateKey() ensures TraitToAnimal("compassionate") == Some(Dove) { }
  lemma CompassionateVotes() ensures AnimalForOption("compassionate") == Some(Dove) { CompassionateKey(); NormalizeKeyShaped("compassionate"); }
  lemma MeticulousKey() ensures TraitToAnimal("meticulous") == Some(Owl) { }
  lemma MeticulousVotes() ensures AnimalForOption("meticulous") == Some(Owl) { MeticulousKey(); NormalizeKeyShaped("meticulous"); }
  lemma SocialKey() ensures TraitToAnimal("social") == Some(Peacock) { }
  lemma SocialVotes() ensures AnimalForOption("social") == Some(Peacock) { SocialKey(); NormalizeKeyShaped("social"); }
  lemma DrivenKey() ensures TraitToAnimal("driven") == Some(Shark) { }
  lemma DrivenVotes() ensures AnimalForOption("driven") == Some(Shark) { DrivenKey(); NormalizeKeyShaped("driven"); }
  lemma WillingKey() ensures TraitToAnimal("willing") == Some(Dove) { }
  lemma WillingVotes() ensures AnimalForOption("willing") == Some(Dove) { WillingKey(); NormalizeKeyShaped("willing"); }
  lemma PracticalKey() ensures TraitToAnimal("practical") == Some(Owl) { }
  lemma PracticalVotes() ensures AnimalForOption("practical") == Some(Owl) { PracticalKey(); NormalizeKeyShaped("practical"); }
  lemma CreativeKey() ensures TraitToAnimal("creative") == Some(Peacock) { }
  lemma CreativeVotes() ensures AnimalForOption("creative") == Some(Peacock) { CreativeKey(); NormalizeKeyShaped("creative"); }
  lemma PersistentKey() ensures TraitToAnimal("persistent") == Some(Shark) { }
  lemma PersistentVotes() ensures AnimalForOption("persistent") == Some(Shark) { PersistentKey(); NormalizeKeyShaped("persistent"); }
  lemma LoyalKey() ensures TraitToAnimal("loyal") == Some(Dove) { }
  lemma LoyalVotes() ensures AnimalForOption("loyal") == Some(Dove) { LoyalKey(); NormalizeKeyShaped("loyal"); }
  lemma ConventionalKey() ensures TraitToAnimal("conventional") == Some(Owl) { }
  lemma ConventionalVotes() ensures AnimalForOption("conventional") == Some(Owl) { ConventionalKey(); NormalizeKeyShaped("conventional"); }
  lemma InfluentialKey() ensures TraitToAnimal("influential") == Some(Peacock) { }
  lemma InfluentialVotes() ensures AnimalForOption("influential") == Some(Peacock) { InfluentialKey(); NormalizeKeyShaped("influential"); }
  lemma IndependentKey() ensures TraitToAnimal("independent") == Some(Shark) { }
  lemma IndependentVotes() ensures AnimalForOption("independent") == Some(Shark) { IndependentKey(); NormalizeKeyShaped("independent"); }
  lemma CompromisingKey() ensures TraitToAnimal("compromising") == Some(Dove) { }
  lemma CompromisingVotes() ensures AnimalForOption("compromising") == Some(Dove) { CompromisingKey(); NormalizeKeyShaped("compromising"); }
  lemma AccurateKey() ensures TraitToAnimal("accurate") == Some(Owl) { }
  lemma AccurateVotes() ensures AnimalForOption("accurate") == Some(Owl) { AccurateKey(); NormalizeKeyShaped("accurate"); }
  lemma ImpulsiveKey() ensures TraitToAnimal("impulsive") == Some(Peacock) { }
  lemma ImpulsiveVotes() ensures AnimalForOption("impulsive") == Some(Peacock) { ImpulsiveKey(); NormalizeKeyShaped("impulsive"); }
  lemma AssertiveKey() ensures TraitToAnimal("assertive") == Some(Shark) { }
  lemma AssertiveVotes() ensures AnimalForOption("assertive") == Some(Shark) { AssertiveKey(); NormalizeKeyShaped("assertive"); }
  lemma DependableKey() ensures TraitToAnimal("dependable") == Some(Dove) { }
  lemma DependableVotes() ensures AnimalForOption("dependable") == Some(Dove) { DependableKey(); NormalizeKeyShaped("dependable"); }
  lemma ProceduralKey() ensures TraitToAnimal("procedural") == Some(Owl) { }
  lemma ProceduralVotes() ensures AnimalForOption("procedural") == Some(Owl) { ProceduralKey(); NormalizeKeyShaped("procedural"); }
  lemma PassionateKey() ensures TraitToAnimal("passionate") == Some(Peacock) { }
  lemma PassionateVotes() ensures AnimalForOption("passionate") == Some(Peacock) { PassionateKey(); NormalizeKeyShaped("passionate"); }
  lemma CompetitiveKey() ensures TraitToAnimal("competitive") == Some(Shark) { }
  lemma CompetitiveVotes() ensures AnimalForOption("competitive") == Some(Shark) { CompetitiveKey(); NormalizeKeyShaped("competitive"); }
  lemma CharitableKey() ensures TraitToAnimal("charitable") == Some(Dove) { }
  lemma CharitableVotes() ensures AnimalForOption("charitable") == Some(Dove) { CharitableKey(); NormalizeKeyShaped("charitable"); }
  lemma CuriousKey() ensures TraitToAnimal("curious") == Some(Owl) { }
  lemma CuriousVotes() ensures AnimalForOption("curious") == Some(Owl) { CuriousKey(); NormalizeKeyShaped("curious"); }
  lemma MotivatorKey() ensures TraitToAnimal("motivator") == Some(Peacock) { }
  lemma MotivatorVotes() ensures AnimalForOption("motivator") == Some(Peacock) { MotivatorKey(); NormalizeKeyShaped("motivator"); }
  lemma PowerfulKey() ensures TraitToAnimal("powerful") == Some(Shark) { }
  lemma PowerfulVotes() ensures AnimalForOption("powerful") == Some(Shark) { PowerfulKey(); NormalizeKeyShaped("powerful"); }
  lemma RespectfulKey() ensures TraitToAnimal("respectful") == Some(Dove) { }
  lemma RespectfulVotes() ensures AnimalForOption("respectful") == Some(Dove) { RespectfulKey(); NormalizeKeyShaped("respectful"); }
  lemma WithdrawnKey() ensures TraitToAnimal("withdrawn") == Some(Owl) { }
  lemma WithdrawnVotes() ensures AnimalForOption("withdrawn") == Some(Owl) { WithdrawnKey(); NormalizeKeyShaped("withdrawn"); }
  lemma ExcitableKey() ensures TraitToAnimal("excitable") == Some(Peacock) { }
  lemma ExcitableVotes() ensures AnimalForOption("excitable") == Some(Peacock) { ExcitableKey(); NormalizeKeyShaped("excitable"); }
  lemma ToughKey() ensures TraitToAnimal("tough") == Some(Shark) { }
  lemma ToughVotes() ensures AnimalForOption("tough") == Some(Shark) { ToughKey(); NormalizeKeyShaped("tough"); }
  lemma SelflessKey() ensures TraitToAnimal("selfless") == Some(Dove) { }
  lemma SelflessVotes() ensures AnimalForOption("selfless") == Some(Dove) { SelflessKey(); NormalizeKeyShaped("selfless"); }
  lemma SeekingKey() ensures TraitToAnimal("seeking") == Some(Owl) { }
  lemma SeekingVotes() ensures AnimalForOption("seeking") == Some(Owl) { SeekingKey(); NormalizeKeyShaped("seeking"); }
  lemma AdventurousKey() ensures TraitToAnimal("adventurous") == Some(Peacock) { }
  lemma AdventurousVotes() ensures AnimalForOption("adventurous") == Some(Peacock) { AdventurousKey(); NormalizeKeyShaped("adventurous"); }
  lemma GoalOrientedKey() ensures TraitToAnimal("goal oriented") == Some(Shark) { }
  lemma GoalOrientedVotes() ensures AnimalForOption("goal oriented") == Some(Shark) { GoalOrientedKey(); NormalizeKeyShaped("goal oriented"); }
  lemma SincereKey() ensures TraitToAnimal("sincere") == Some(Dove) { }
  lemma SincereVotes() ensures AnimalForOption("sincere") == Some(Dove) { SincereKey(); NormalizeKeyShaped("sincere"); }
  lemma UnemotionalKey() ensures TraitToAnimal("unemotional") == Some(Owl) { }
  lemma UnemotionalVotes() ensures AnimalForOption("unemotional") == Some(Owl) { UnemotionalKey(); NormalizeKeyShaped("unemotional"); }
  lemma CheerfulKey() ensures TraitToAnimal("cheerful") == Some(Peacock) { }
  lemma CheerfulVotes() ensures AnimalForOption("cheerful") == Some(Peacock) { CheerfulKey(); NormalizeKeyShaped("cheerful"); }
  lemma HarshKey() ensures TraitToAnimal("harsh") == Some(Shark) { }
  lemma HarshVotes() ensures AnimalForOption("harsh") == Some(Shark) { HarshKey(); NormalizeKeyShaped("harsh"); }
  lemma RiskAverseKey() ensures TraitToAnimal("risk averse") == Some(Dove) { }
  lemma RiskAverseVotes() ensures AnimalForOption("risk averse") == Some(Dove) { RiskAverseKey(); NormalizeKeyShaped("risk averse"); }
  lemma MinimizeRiskKey() ensures TraitToAnimal("minimize risk") == Some(Owl) { }
  lemma MinimizeRiskVotes() ensures AnimalForOption("minimize risk") == Some(Owl) { MinimizeRiskKey(); NormalizeKeyShaped("minimize risk"); }
  lemma RashKey() ensures TraitToAnimal("rash") == Some(Peacock) { }
  lemma RashVotes() ensures AnimalForOption("rash") == Some(Peacock) { RashKey(); NormalizeKeyShaped("rash"); }
  lemma RiskTakerKey() ensures TraitToAnimal("risk taker") == Some(Shark) { }
  lemma RiskTakerVotes() ensures AnimalForOption("risk taker") == Some(Shark) { RiskTakerKey(); NormalizeKeyShaped("risk taker"); }
  lemma IdealisticKey() ensures TraitToAnimal("idealistic") == Some(Dove) { }
  lemma IdealisticVotes() ensures AnimalForOption("idealistic") == Some(Dove) { IdealisticKey(); NormalizeKeyShaped("idealistic"); }
  lemma PerfectionistKey() ensures TraitToAnimal("perfectionist") == Some(Owl) { }
  lemma PerfectionistVotes() ensures AnimalForOption("perfectionist") == Some(Owl) { PerfectionistKey(); NormalizeKeyShaped("perfectionist"); }
  lemma InterestedKey() ensures TraitToAnimal("interested") == Some(Peacock) { }
  lemma InterestedVotes() ensures AnimalForOption("interested") == Some(Peacock) { InterestedKey(); NormalizeKeyShaped("interested"); }
  lemma DemandingKey() ensures TraitToAnimal("demanding") == Some(Shark) { }
  lemma DemandingVotes() ensures AnimalForOption("demanding") == Some(Shark) { DemandingKey(); NormalizeKeyShaped("demanding"); }
  lemma ConsistentKey() ensures TraitToAnimal("consistent") == Some(Dove) { }
  lemma ConsistentVotes() ensures AnimalForOption("consistent") == Some(Dove) { ConsistentKey(); NormalizeKeyShaped("consistent"); }
  lemma PredictableKey() ensures TraitToAnimal("predictable") == Some(Owl) { }
  lemma PredictableVotes() ensures AnimalForOption("predictable") == Some(Owl) { PredictableKey(); NormalizeKeyShaped("predictable"); }
  lemma UndisciplinedKey() ensures TraitToAnimal("undisciplined") == Some(Peacock) { }
  lemma UndisciplinedVotes() ensures AnimalForOption("undisciplined") == Some(Peacock) { UndisciplinedKey(); NormalizeKeyShaped("undisciplined"); }
  lemma RestlessKey() ensures TraitToAnimal("restless") == Some(Shark) { }
  lemma RestlessVotes() ensures AnimalForOption("restless") == Some(Shark) { RestlessKey(); NormalizeKeyShaped("restless"); }
  lemma ShyKey() ensures TraitToAnimal("shy") == Some(Dove) { }
  lemma ShyVotes() ensures AnimalForOption("shy") == Some(Dove) { ShyKey(); NormalizeKeyShaped("shy"); }
  lemma ReclusiveKey() ensures TraitToAnimal("reclusive") == Some(Owl) { }
  lemma ReclusiveVotes() ensures AnimalForOption("reclusive") == Some(Owl) { ReclusiveKey(); NormalizeKeyShaped("reclusive"); }
  lemma BossyKey() ensures TraitToAnimal("bossy") == Some(Shark) { }
  lemma BossyVotes() ensures AnimalForOption("bossy") == Some(Shark) { BossyKey(); NormalizeKeyShaped("bossy"); }
  lemma FearfulKey() ensures TraitToAnimal("fearful") == Some(Dove) { }
  lemma FearfulVotes() ensures AnimalForOption("fearful") == Some(Dove) { FearfulKey(); NormalizeKeyShaped("fearful"); }
  lemma ElaborateKey() ensures TraitToAnimal("elaborate") == Some(Owl) { }
  lemma ElaborateVotes() ensures AnimalForOption("elaborate") == Some(Owl) { ElaborateKey(); NormalizeKeyShaped("elaborate"); }
  lemma ReactingKey() ensures TraitToAnimal("reacting") == Some(Peacock) { }
  lemma ReactingVotes() ensures AnimalForOption("reacting") == Some(Peacock) { ReactingKey(); NormalizeKeyShaped("reacting"); }
  lemma ForwardKey() ensures TraitToAnimal("forward") == Some(Shark) { }
  lemma ForwardVotes() ensures AnimalForOption("forward") == Some(Shark) { ForwardKey(); NormalizeKeyShaped("forward"); }
  lemma PleasantKey() ensures TraitToAnimal("pleasant") == Some(Dove) { }
  lemma PleasantVotes() ensures AnimalForOption("pleasant") == Some(Dove) { PleasantKey(); NormalizeKeyShaped("pleasant"); }
  lemma AchievingKey() ensures TraitToAnimal("achieving") == Some(Shark) { }
  lemma AchievingVotes() ensures AnimalForOption("achieving") == Some(Shark) { AchievingKey(); NormalizeKeyShaped("achieving"); }
  lemma BraggartKey() ensures TraitToAnimal("braggart") == Some(Peacock) { }
  lemma BraggartVotes() ensures AnimalForOption("braggart") == Some(Peacock) { BraggartKey(); NormalizeKeyShaped("braggart"); }
  lemma SevereKey() ensures TraitToAnimal("severe") == Some(Shark) { }
  lemma SevereVotes() ensures AnimalForOption("severe") == Some(Shark) { SevereKey(); NormalizeKeyShaped("severe"); }
  lemma PeopleFocusedKey() ensures TraitToAnimal("people focused") == Some(Peacock) { }
  lemma PeopleFocusedVotes() ensures AnimalForOption("people focused") == Some(Peacock) { PeopleFocusedKey(); NormalizeKeyShaped("people focused"); }
  lemma ShowyKey() ensures TraitToAnimal("showy") == Some(Peacock) { }
  lemma ShowyVotes() ensures AnimalForOption("showy") == Some(Peacock) { ShowyKey(); NormalizeKeyShaped("showy"); }
  lemma StrongWilledKey() ensures TraitToAnimal("strong willed") == Some(Shark) { }
  lemma StrongWilledVotes() ensures AnimalForOption("strong willed") == Some(Shark) { StrongWilledKey(); NormalizeKeyShaped("strong willed"); }

  lemma Question1Mapped()
    ensures Question1.id == 1 && |Question1.options| == 4
    ensures forall o :: o in Question1.options ==> AnimalForOption(o).Some?
  {
    PatientVotes(); LogicalVotes(); EnthusiasticVotes(); BoldVotes();
    AllFour(Question1.options, "patient", "logical", "enthusiastic", "bold", o => AnimalForOption(o).Some?);
  }

  lemma Question2Mapped()
    ensures Question2.id == 2 && |Question2.options| == 4
    ensures forall o :: o in Question2.options ==> AnimalForOption(o).Some?
  {
    SupportiveVotes(); ThoroughVotes(); OptimisticVotes(); DecisiveVotes();
    AllFour(Question2.options, "supportive", "thorough", "optimistic", "decisive", o => AnimalForOption(o).Some?);
  }

  lemma Question3Mapped()
    ensures Question3.id == 3 && |Question3.options| == 4
    ensures forall o :: o in Question3.options ==> AnimalForOption(o).Some?
  {
    PeacefulVotes(); AnalyticalVotes(); TalkativeVotes(); DirectVotes();
    AllFour(Question3.options, "peaceful", "analytical", "talkative", "direct", o => AnimalForOption(o).Some?);
  }

  lemma Question4Mapped()
    ensures Question4.id == 4 && |Question4.options| == 4
    ensures forall o :: o in Question4.options ==> AnimalForOption(o).Some?
  {
    FriendlyVotes(); SeriousVotes(); CharismaticVotes(); DominantVotes();
    AllFour(Question4.options, "friendly", "serious", "charismatic", "dominant", o => AnimalForOption(o).Some?);
  }

  lemma Question5Mapped()
    ensures Question5.id == 5 && |Question5.options| == 4
    ensures forall o :: o in Question5.options ==> AnimalForOption(o).Some?
  {
    CompassionateVotes(); MeticulousVotes(); SocialVotes(); DrivenVotes();
    AllFour(Question5.options, "compassionate", "meticulous", "social", "driven", o => AnimalForOption(o).Some?);
  }

  lemma Question6Mapped()
    ensures Question6.id == 6 && |Question6.options| == 4
    ensures forall o :: o in Question6.options ==> AnimalForOption(o).Some?
  {
    WillingVotes(); PracticalVotes(); CreativeVotes(); PersistentVotes();
    AllFour(Question6.options, "willing", "practical", "creative", "persistent", o => AnimalForOption(o).Some?);
  }

  lemma Question7Mapped()
    ensures Question7.id == 7 && |Question7.options| == 4
    ensures forall o :: o in Question7.options ==> AnimalForOption(o).Some?
  {
    LoyalVotes(); ConventionalVotes(); InfluentialVotes(); IndependentVotes();
    AllFour(Question7.options, "loyal", "conventional", "influential", "independent", o => AnimalForOption(o).Some?);
  }

  lemma Question8Mapped()
    ensures Question8.id == 8 && |Question8.options| == 4
    ensures forall o :: o in Question8.options ==> AnimalForOption(o).Some?
  {
    CompromisingVotes(); AccurateVotes(); ImpulsiveVotes(); AssertiveVotes();
    AllFour(Question8.options, "compromising", "accurate", "impulsive", "assertive", o => AnimalForOption(o).Some?);
  }

  lemma Question9Mapped()
    ensures Question9.id == 9 && |Question9.options| == 4
    ensures forall o :: o in Question9.options ==> AnimalForOption(o).Some?
  {
    DependableVotes(); ProceduralVotes(); PassionateVotes(); CompetitiveVotes();
    AllFour(Question9.options, "dependable", "procedural", "passionate", "competitive", o => AnimalForOption(o).Some?);
  }

  lemma Question10Mapped()
    ensures Question10.id == 10 && |Question10.options| == 4
    ensures forall o :: o in Question10.options ==> AnimalForOption(o).Some?
  {
    CharitableVotes(); CuriousVotes(); MotivatorVotes(); PowerfulVotes();
    AllFour(Question10.options, "charitable", "curious", "motivator", "powerful", o => AnimalForOption(o).Some?);
  }

  lemma Question11Mapped()
    ensures Question11.id == 11 && |Question11.options| == 4
    ensures forall o :: o in Question11.options ==> AnimalForOption(o).Some?
  {
    RespectfulVotes(); WithdrawnVotes(); ExcitableVotes(); ToughVotes();
    AllFour(Question11.options, "respectful", "withdrawn", "excitable", "tough", o => AnimalForOption(o).Some?);
  }

  lemma Question12Mapped()
    ensures Question12.id == 12 && |Question12.options| == 4
    ensures forall o :: o in Question12.options ==> AnimalForOption(o).Some?
  {
    SelflessVotes(); SeekingVotes(); AdventurousVotes(); GoalOrientedVotes();
    AllFour(Question12.options, "selfless", "seeking", "adventurous", "goal oriented", o => AnimalForOption(o).Some?);
  }

  lemma Question13Mapped()
    ensures Question13.id == 13 && |Question13.options| == 4
    ensures forall o :: o in Question13.options ==> AnimalForOption(o).Some?
  {
    SincereVotes(); UnemotionalVotes(); CheerfulVotes(); HarshVotes();
    AllFour(Question13.options, "sincere", "unemotional", "cheerful", "harsh", o => AnimalForOption(o).Some?);
  }

  lemma Question14Mapped()
    ensures Question14.id == 14 && |Question14.options| == 4
    ensures forall o :: o in Question14.options ==> AnimalForOption(o).Some?
  {
    RiskAverseVotes(); MinimizeRiskVotes(); RashVotes(); RiskTakerVotes();
    AllFour(Question14.options, "risk averse", "minimize risk", "rash", "risk taker", o => AnimalForOption(o).Some?);
  }

  lemma Question15Mapped()
    ensures Question15.id == 15 && |Question15.options| == 4
    ensures forall o :: o in Question15.options ==> AnimalForOption(o).Some?
  {
    IdealisticVotes(); PerfectionistVotes(); InterestedVotes(); DemandingVotes();
    AllFour(Question15.options, "idealistic", "perfectionist", "interested", "demanding", o => AnimalForOption(o).Some?);
  }

  lemma Question16Mapped()
    ensures Question16.id == 16 && |Question16.options| == 4
    ensures forall o :: o in Question16.options ==> AnimalForOption(o).Some?
  {
    ConsistentVotes(); PredictableVotes(); UndisciplinedVotes(); RestlessVotes();
    AllFour(Question16.options, "consistent", "predictable", "undisciplined", "restless", o => AnimalForOption(o).Some?);
  }

  lemma Question17Mapped()
    ensures Question17.id == 17 && |Question17.options| == 4
    ensures forall o :: o in Question17.options ==> AnimalForOption(o).Some?
  {
    ShyVotes(); ReclusiveVotes(); SocialVotes(); BossyVotes();
    AllFour(Question17.options, "shy", "reclusive", "social", "bossy", o => AnimalForOption(o).Some?);
  }

  lemma Question18Mapped()
    ensures Question18.id == 18 && |Question18.options| == 4
    ensures forall o :: o in Question18.options ==> AnimalForOption(o).Some?
  {
    FearfulVotes(); ElaborateVotes(); ReactingVotes(); ForwardVotes();
    AllFour(Question18.options, "fearful", "elaborate", "reacting", "forward", o => AnimalForOption(o).Some?);
  }

  lemma Question19Mapped()
    ensures Question19.id == 19 && |Question19.options| == 4
    ensures forall o :: o in Question19.options ==> AnimalForOption(o).Some?
  {
    PleasantVotes(); AchievingVotes(); BraggartVotes(); SevereVotes();
    AllFour(Question19.options, "pleasant", "achieving", "braggart", "severe", o => AnimalForOption(o).Some?);
  }

  lemma Question20Mapped()
    ensures Question20.id == 20 && |Question20.options| == 4
    ensures forall o :: o in Question20.options ==> AnimalForOption(o).Some?
  {
    PeopleFocusedVotes(); AnalyticalVotes(); ShowyVotes(); StrongWilledVotes();
    AllFour(Question20.options, "people focused", "analytical", "showy", "strong willed", o => AnimalForOption(o).Some?);
  }

  /** Question `k + 1` has four answers, all of them mapped. */
  lemma QuestionMapped(k: nat)
    requires k < |PersonalityQuestions|
    ensures PersonalityQuestions[k].id == k + 1 && |PersonalityQuestions[k].options| == 4
    ensures forall o :: o in PersonalityQuestions[k].options ==> AnimalForOption(o).Some?
  {
    if k == 0 {
      assert PersonalityQuestions[0] == Question1;
      Question1Mapped();
    } else if k == 1 {
      assert PersonalityQuestions[1] == Question2;
      Question2Mapped();
    } else if k == 2 {
      assert PersonalityQuestions[2] == Question3;
      Question3Mapped();
    } else if k == 3 {
      assert PersonalityQuestions[3] == Question4;
      Question4Mapped();
    } else if k == 4 {
      assert PersonalityQuestions[4] == Question5;
      Question5Mapped();
    } else if k == 5 {
      assert PersonalityQuestions[5] == Question6;
      Question6Mapped();
    } else if k == 6 {
      assert PersonalityQuestions[6] == Question7;
      Question7Mapped();
    } else if k == 7 {
      assert PersonalityQuestions[7] == Question8;
      Question8Mapped();
    } else if k == 8 {
      assert PersonalityQuestions[8] == Question9;
      Question9Mapped();
    } else if k == 9 {
      assert PersonalityQuestions[9] == Question10;
      Question10Mapped();
    } else if k == 10 {
      assert PersonalityQuestions[10] == Question11;
      Question11Mapped();
    } else if k == 11 {
      assert PersonalityQuestions[11] == Question12;
      Question12Mapped();
    } else if k == 12 {
      assert PersonalityQuestions[12] == Question13;
      Question13Mapped();
    } else if k == 13 {
      assert PersonalityQuestions[13] == Question14;
      Question14Mapped();
    } else if k == 14 {
      assert PersonalityQuestions[14] == Question15;
      Question15Mapped();
    } else if k == 15 {
      assert PersonalityQuestions[15] == Question16;
      Question16Mapped();
    } else if k == 16 {
      assert PersonalityQuestions[16] == Question17;
      Question17Mapped();
    } else if k == 17 {
      assert PersonalityQuestions[17] == Question18;
      Question18Mapped();
    } else if k == 18 {
      assert PersonalityQuestions[18] == Question19;
      Question19Mapped();
    } else if k == 19 {
      assert PersonalityQuestions[19] == Question20;
      Question20Mapped();
    }
  }

  /** Every one of the 80 answers of the question bank votes for some animal. */
  lemma AllOptionsMapped()
    ensures |PersonalityQuestions| == 20
    ensures forall k, o :: 0 <= k < |PersonalityQuestions| && o in PersonalityQuestions[k].options ==> AnimalForOption(o).Some?
  {
    forall k, o | 0 <= k < |PersonalityQuestions| && o in PersonalityQuestions[k].options
      ensures AnimalForOption(o).Some?
    {
      QuestionMapped(k);
    }
  }

  /** A quiz answered from the question bank has no unmapped answer, so every
      answer is a vote and the votes add up to the number of answers. */
  lemma BankAnswersAllVote(responses: seq<QuizResponse>)
    requires forall r :: r in responses ==> exists k :: 0 <= k < |PersonalityQuestions| && r.selectedOption in PersonalityQuestions[k].options
    ensures Unmapped(AnimalForOption, responses) == []
    ensures Votes(AnimalForOption, responses).Total() == |responses|
  {
    AllOptionsMapped();
    NoneUnmapped(responses);
    VotesTotal(AnimalForOption, responses);
  }

  lemma {:induction false} NoneUnmapped(responses: seq<QuizResponse>)
    requires forall r :: r in responses ==> AnimalForOption(r.selectedOption).Some?
    ensures Unmapped(AnimalForOption, responses) == []
    decreases |responses|
  {
    if responses != [] {
      var init := responses[..|responses| - 1];
      assert responses[|responses| - 1] in responses;
      assert forall r :: r in init ==> r in responses;
      NoneUnmapped(init);
    }
  }

  /** The answer position is not the scoring rule: the first answer of
      question 20 votes for the peacock ... */
  lemma FirstAnswerOfQuestion20()
    ensures Question20.options[0] == "people focused"
    ensures AnimalForOption(Question20.options[0]) == Some(Peacock)
  {
    assert Question20.options == ["people focused", "analytical", "showy", "strong willed"];
    PeopleFocusedVotes();
  }

  /** ... and the second answer of question 19 for the shark. */
  lemma SecondAnswerOfQuestion19()
    ensures Question19.options[1] == "achieving"
    ensures AnimalForOption(Question19.options[1]) == Some(Shark)
  {
    assert Question19.options[1] == "achieving";
    AchievingVotes();
  }
}
