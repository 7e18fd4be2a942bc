/** The scoring engine of the personality quiz: the four animal archetypes, the
    static tables the engine consults, and the two scoring strategies.

    Strategy A (`DetermineAnimalType`, `GetBlendedResults`) weighs free-form
    trait labels against each archetype's defining traits and strength phrases.
    Strategy B (`DetermineAnimalTypeFromResponses`,
    `GetBlendedResultsFromResponses`) is the one the quiz uses: every answer
    casts one vote for the animal its text is listed under. */
module QuizData {
  import opened Wrappers
  import opened Text

  // ---------------------------------------------------------------------------
  // Animals and per-animal records
  // ---------------------------------------------------------------------------

  /** `AnimalType`. */
  datatype Animal = Dove | Owl | Peacock | Shark

  /** The identifier of an animal as the application spells it. */
  function Id(a: Animal): string {
    match a
    case Dove => "dove"
    case Owl => "owl"
    case Peacock => "peacock"
    case Shark => "shark"
  }

  /** Position of an animal in the key order of every `scores` and percentage
      record (dove, owl, peacock, shark). The same order is the alphabetical
      order of the identifiers (see `RankIsAlphabetical`). */
  function Rank(a: Animal): nat {
    match a
    case Dove => 0
    case Owl => 1
    case Peacock => 2
    case Shark => 3
  }

  /** Code-point lexicographic order on strings, which is what `localeCompare`
      gives for lower-case ASCII identifiers. */
  predicate LexLess(s: string, t: string) {
    if s == [] then t != []
    else t != [] && (s[0] < t[0] || (s[0] == t[0] && LexLess(s[1..], t[1..])))
  }

  /** The record key order and the alphabetical order of the identifiers agree. */
  lemma RankIsAlphabetical(a: Animal, b: Animal)
    ensures Rank(a) < Rank(b) <==> LexLess(Id(a), Id(b))
  {
    match a {
      case Dove => assert Id(a)[0] == 'd';
      case Owl => assert Id(a)[0] == 'o';
      case Peacock => assert Id(a)[0] == 'p';
      case Shark => assert Id(a)[0] == 's';
    }
    match b {
      case Dove => assert Id(b)[0] == 'd';
      case Owl => assert Id(b)[0] == 'o';
      case Peacock => assert Id(b)[0] == 'p';
      case Shark => assert Id(b)[0] == 's';
    }
    if a == b {
      LexLessIrreflexive(Id(a));
    }
  }

  lemma {:induction false} LexLessIrreflexive(s: string)
    ensures !LexLess(s, s)
    decreases |s|
  {
    if s != [] {
      LexLessIrreflexive(s[1..]);
    }
  }

  /** Different animals have different ranks. */
  lemma RankInjective(a: Animal, b: Animal)
    ensures Rank(a) == Rank(b) <==> a == b
  {
  }

  /** The order in which `animalArchetypes` declares its entries. */
  const ArchetypeOrder: seq<Animal> := [Dove, Peacock, Owl, Shark]

  /** A `Record<AnimalType, number>` with natural-number values: the `scores`
      records and the percentage records. */
  datatype Tally = Tally(dove: nat, owl: nat, peacock: nat, shark: nat) {

    function Get(a: Animal): nat {
      match a
      case Dove => dove
      case Owl => owl
      case Peacock => peacock
      case Shark => shark
    }

    /** `scores[a] += k`. */
    function Add(a: Animal, k: nat): (t: Tally)
      ensures t.Get(a) == Get(a) + k
      ensures forall b :: b != a ==> t.Get(b) == Get(b)
    {
      match a
      case Dove => this.(dove := dove + k)
      case Owl => this.(owl := owl + k)
      case Peacock => this.(peacock := peacock + k)
      case Shark => this.(shark := shark + k)
    }

    /** The animal-by-animal sum of two records. */
    function Plus(other: Tally): (t: Tally)
      ensures forall a :: t.Get(a) == Get(a) + other.Get(a)
    {
      Tally(dove + other.dove, owl + other.owl, peacock + other.peacock, shark + other.shark)
    }

    /** `Object.values(scores).reduce((sum, score) => sum + score, 0)`. */
    function Total(): nat {
      dove + owl + peacock + shark
    }

    /** No single value exceeds the total. */
    lemma GetAtMostTotal(a: Animal)
      ensures Get(a) <= Total()
    {
    }
  }

  /** The all-zero record every scoring function starts from. */
  const NoScores := Tally(0, 0, 0, 0)

  /** Two records are equal when they agree on every animal. */
  lemma TallyExt(s: Tally, t: Tally)
    requires forall a :: s.Get(a) == t.Get(a)
    ensures s == t
  {
    assert s.Get(Dove) == t.Get(Dove) && s.Get(Owl) == t.Get(Owl);
    assert s.Get(Peacock) == t.Get(Peacock) && s.Get(Shark) == t.Get(Shark);
  }

  /** Adding records is associative and has the all-zero record as unit. */
  lemma PlusAssoc(s: Tally, t: Tally, u: Tally)
    ensures s.Plus(t).Plus(u) == s.Plus(t.Plus(u))
  {
  }

  lemma PlusCommute(s: Tally, t: Tally)
    ensures s.Plus(t) == t.Plus(s)
  {
  }

  lemma PlusSwap(s: Tally, t: Tally, u: Tally)
    ensures s.Plus(t).Plus(u) == s.Plus(u).Plus(t)
  {
  }

  lemma PlusNoScores(t: Tally)
    ensures t.Plus(NoScores) == t && NoScores.Plus(t) == t
  {
  }

  /** Adding a one-animal record is adding to that animal. */
  lemma PlusSingle(t: Tally, a: Animal, k: nat)
    ensures t.Plus(NoScores.Add(a, k)) == t.Add(a, k)
  {
    match a {
      case Dove =>
      case Owl =>
      case Peacock =>
      case Shark =>
    }
  }

  /** Two additions to the same animal are one. */
  lemma AddAdd(t: Tally, a: Animal, j: nat, k: nat)
    ensures t.Add(a, j).Add(a, k) == t.Add(a, j + k)
  {
    match a {
      case Dove =>
      case Owl =>
      case Peacock =>
      case Shark =>
    }
  }

  /** Adding `k` to one animal adds `k` to the total. */
  lemma AddTotal(t: Tally, a: Animal, k: nat)
    ensures t.Add(a, k).Total() == t.Total() + k
  {
    match a {
      case Dove =>
      case Owl =>
      case Peacock =>
      case Shark =>
    }
  }

  // ---------------------------------------------------------------------------
  // Static tables
  // ---------------------------------------------------------------------------

  /** The part of an `AnimalArchetype` that the core reads: the identifier, the
      display name, the defining traits and the strength phrases. */
  datatype Archetype = Archetype(id: Animal, name: string, traits: seq<string>, strengths: seq<string>)

  /** The entries of `animalArchetypes`, one per animal. */
  const DoveArchetype := Archetype(Dove, "Dove",
    ["Peaceful", "Friendly", "Loyal", "Team-oriented", "Supportive"],
    ["Empathetic and supportive, always putting others first",
     "Patient and dependable, providing stability to teams",
     "Collaboration-focused, excelling in team environments",
     "Harmony-building, creating peaceful work environments",
     "Excellent listener who makes others feel valued and heard"])

  const OwlArchetype := Archetype(Owl, "Owl",
    ["Logical", "Detail-oriented", "Methodical", "Perfectionist", "Rule-following"],
    ["Analytical and well-organized in their approach to problems",
     "Thorough and meticulous, ensuring high-quality outcomes",
     "Quality-focused with exceptional attention to detail",
     "Ideal for data-driven roles requiring precision",
     "Values structure and follows established procedures"])

  const PeacockArchetype := Archetype(Peacock, "Peacock",
    ["Showy", "Talkative", "Optimistic", "Enthusiastic", "Attention-seeking"],
    ["Creative and energetic communicator who inspires others",
     "Natural ability to see the big picture and envision possibilities",
     "Excellent at building relationships and networking",
     "Brings enthusiasm and positive energy to teams",
     "Skilled at motivating others and generating excitement for ideas"])

  const SharkArchetype := Archetype(Shark, "Shark",
    ["Bold", "Decisive", "Dominant", "Direct", "Challenge-driven"],
    ["Natural leaders who thrive under pressure",
     "Goal-oriented with exceptional focus on results",
     "Quick decision-making abilities in challenging situations",
     "Confident and comfortable taking charge of situations",
     "Drives teams to achieve ambitious goals through determination"])

  /** `animalArchetypes[a]`. */
  function ArchetypeOf(a: Animal): Archetype {
    match a
    case Dove => DoveArchetype
    case Owl => OwlArchetype
    case Peacock => PeacockArchetype
    case Shark => SharkArchetype
  }

  /** `quizTraits`: the labels offered on the trait-selection screen, in
      their order, written eight to a line. */
  const QuizTraits: seq<string> :=
    ["Persistent", "Adventurous", "Thorough", "Patient", "Powerful", "Charismatic", "Logical", "Sincere"] +
    ["Motivated", "Optimistic", "Practical", "Accurate", "Competitive", "Demanding", "Risk taker", "Serious"] +
    ["Compassionate", "Driven", "Curious", "Passionate", "Talkative", "Assertive", "Independent", "Enthusiastic"] +
    ["Idealistic", "Charitable", "Peaceful", "Strong willed", "Respectful", "Cheerful", "Goal oriented", "Procedural"] +
    ["Selfless", "People focused", "Achieving", "Meticulous", "Seeking", "Conventional", "Social", "Dependable"] +
    ["Influential", "Impulsive", "Perfectionist", "Forward", "Supportive", "Analytical"]

  /** A question of the bank: its number and its four answer texts. */
  datatype QuizQuestion = QuizQuestion(id: nat, options: seq<string>)

  /* The twenty questions of `personalityQuestions`, each with its four answers. */
  const Question1 := QuizQuestion(1, ["patient", "logical", "enthusiastic", "bold"])
  const Question2 := QuizQuestion(2, ["supportive", "thorough", "optimistic", "decisive"])
  const Question3 := QuizQuestion(3, ["peaceful", "analytical", "talkative", "direct"])
  const Question4 := QuizQuestion(4, ["friendly", "serious", "charismatic", "dominant"])
  const Question5 := QuizQuestion(5, ["compassionate", "meticulous", "social", "driven"])
  const Question6 := QuizQuestion(6, ["willing", "practical", "creative", "persistent"])
  const Question7 := QuizQuestion(7, ["loyal", "conventional", "influential", "independent"])
  const Question8 := QuizQuestion(8, ["compromising", "accurate", "impulsive", "assertive"])
  const Question9 := QuizQuestion(9, ["dependable", "procedural", "passionate", "competitive"])
  const Question10 := QuizQuestion(10, ["charitable", "curious", "motivator", "powerful"])
  const Question11 := QuizQuestion(11, ["respectful", "withdrawn", "excitable", "tough"])
  const Question12 := QuizQuestion(12, ["selfless", "seeking", "adventurous", "goal oriented"])
  const Question13 := QuizQuestion(13, ["sincere", "unemotional", "cheerful", "harsh"])
  const Question14 := QuizQuestion(14, ["risk averse", "minimize risk", "rash", "risk taker"])
  const Question15 := QuizQuestion(15, ["idealistic", "perfectionist", "interested", "demanding"])
  const Question16 := QuizQuestion(16, ["consistent", "predictable", "undisciplined", "restless"])
  const Question17 := QuizQuestion(17, ["shy", "reclusive", "social", "bossy"])
  const Question18 := QuizQuestion(18, ["fearful", "elaborate", "reacting", "forward"])
  const Question19 := QuizQuestion(19, ["pleasant", "achieving", "braggart", "severe"])
  const Question20 := QuizQuestion(20, ["people focused", "analytical", "showy", "strong willed"])

  /** `personalityQuestions`. */
  const PersonalityQuestions: seq<QuizQuestion> := [
    Question1, Question2, Question3, Question4, Question5,
    Question6, Question7, Question8, Question9, Question10,
    Question11, Question12, Question13, Question14, Question15,
    Question16, Question17, Question18, Question19, Question20
  ]

  /** One answer: the question it belongs to, the answer text and its position. */
  datatype QuizResponse = QuizResponse(questionId: int, selectedOption: string, optionIndex: int)

  /* `traitToAnimalMapping`, written as its four groups of keys, one per animal;
     no key is listed twice. */
  /** The keys listed under `'dove'`. */
  const DoveKeys: set<string> := {
    "patient", "peaceful", "supportive", "charitable", "selfless", "compassionate",
    "sincere", "dependable", "respectful", "willing", "consistent", "dependent",
    "compromising", "risk averse", "fearful", "doormat", "friendly", "loyal",
    "team-oriented", "shy", "pleasant", "moralistic", "idealistic"
  }

  /** The keys listed under `'owl'`. */
  const OwlKeys: set<string> := {
    "logical", "thorough", "methodical", "analytical", "accurate", "meticulous",
    "procedural", "conventional", "practical", "serious", "curious", "perfectionist",
    "minimize risk", "predictable", "unemotional", "reclusive", "detail-oriented", "rule-following",
    "seeking", "elaborate", "awkward", "withdrawn", "uninvolved"
  }

  /** The keys listed under `'peacock'`. */
  const PeacockKeys: set<string> := {
    "talkative", "enthusiastic", "optimistic", "charismatic", "social", "people focused",
    "influential", "motivator", "passionate", "cheerful", "adventurous", "interested",
    "excitable", "braggart", "impulsive", "undisciplined", "interrupts", "rash",
    "showy", "attention-seeking", "creative", "reacting"
  }

  /** The keys listed under `'shark'`. */
  const SharkKeys: set<string> := {
    "bold", "decisive", "dominant", "driven", "persistent", "powerful",
    "competitive", "demanding", "bossy", "assertive", "goal oriented", "strong willed",
    "motivated", "risk taker", "tough", "forward", "harsh", "restless",
    "severe", "myopic", "hotheaded", "direct", "challenge-driven", "achieving",
    "vengeful", "unsympathetic", "independent"
  }
  /** The keys the table lists under `animal`. */
  function KeysOf(animal: Animal): set<string> {
    match animal
    case Dove => DoveKeys
    case Owl => OwlKeys
    case Peacock => PeacockKeys
    case Shark => SharkKeys
  }

  /** `traitToAnimalMapping[key]`: the animal a normalised answer text is listed
      under, or `None` when the text is not a key of the table. */
  function TraitToAnimal(key: string): (found: Option<Animal>)
    ensures found.Some? ==> key in KeysOf(found.value)
    ensures found.None? <==> forall a :: key !in KeysOf(a)
  {
    if key in DoveKeys then Some(Dove)
    else if key in OwlKeys then Some(Owl)
    else if key in PeacockKeys then Some(Peacock)
    else if key in SharkKeys then Some(Shark)
    else None
  }

  /** `option.toLowerCase().trim()`: no capital letters and no white space at
      either end. */
  function NormalizeTrait(option: string): (key: string)
    ensures forall c :: c in key ==> !IsUpper(c)
    ensures key == [] || (!IsSpace(key[0]) && !IsSpace(key[|key| - 1]))
  {
    var l := Lower(option);
    TrimChars(l);
    Trim(l)
  }

  /** The animal an answer text votes for under Strategy B: the animal whose
      keys list the normalised text, and none when no animal lists it. */
  function AnimalForOption(option: string): (vote: Option<Animal>)
    ensures vote.Some? ==> NormalizeTrait(option) in KeysOf(vote.value)
    ensures vote.None? <==> forall a :: NormalizeTrait(option) !in KeysOf(a)
  {
    TraitToAnimal(NormalizeTrait(option))
  }

  /** Normalising is idempotent, so an answer text and its normalised form vote alike. */
  lemma NormalizeIdempotent(option: string)
    ensures NormalizeTrait(NormalizeTrait(option)) == NormalizeTrait(option)
    ensures AnimalForOption(NormalizeTrait(option)) == AnimalForOption(option)
  {
    var l := Lower(option);
    var t := Trim(l);
    TrimChars(l);
    LowerNoUpper(t);
    TrimTrimmed(l);
    TrimFixed(t);
  }

  /** `responsesToTraits`: the answer texts, in order. */
  function ResponsesToTraits(responses: seq<QuizResponse>): (traits: seq<string>)
    ensures |traits| == |responses|
    ensures forall i :: 0 <= i < |responses| ==> traits[i] == responses[i].selectedOption
  {
    if responses == [] then []
    else [responses[0].selectedOption] + ResponsesToTraits(responses[1..])
  }

  // ---------------------------------------------------------------------------
  // Rounding
  // ---------------------------------------------------------------------------

  /** `Math.round(100 * part / whole)` for a positive `whole`, computed on
      integers; `RoundPercentNearest` shows it is the nearest integer, halves
      rounded up. A share of at most the whole is at most 100. */
  function RoundPercent(part: nat, whole: nat): (r: nat)
    requires whole > 0
    ensures part <= whole ==> r <= 100
    ensures part == 0 ==> r == 0
  {
    var n := 200 * part + whole;
    var d := 2 * whole;
    DivBelow(n, d, 1);
    DivBelow(n, d, 101);
    n / d
  }

  lemma DivBelow(n: nat, d: nat, q: nat)
    requires d > 0
    ensures n < d * q ==> n / d < q
  {
    MulMonoImp(d, q, n / d);
  }

  lemma MulMonoImp(d: nat, a: nat, b: nat)
    ensures a <= b ==> d * a <= d * b
  {
  }

  /** `RoundPercent` lies within one half of the exact share `100 * part / whole`,
      the lower end included: the rounding of `Math.round`. */
  lemma RoundPercentNearest(part: nat, whole: nat)
    requires whole > 0
    ensures var r := RoundPercent(part, whole) as real;
            r - 0.5 <= 100.0 * (part as real) / (whole as real) < r + 0.5
  {
    var r := RoundPercent(part, whole);
    var n := 200 * part + whole;
    var d := 2 * whole;
    assert d * r <= n < d * r + d;
    RealScale(r as real, part as real, whole as real);
  }

  lemma DivMul(a: real, w: real)
    requires w != 0.0
    ensures (a / w) * w == a
  {
  }

  lemma RealScale(r: real, p: real, w: real)
    requires w > 0.0
    requires 2.0 * w * r <= 200.0 * p + w < 2.0 * w * r + 2.0 * w
    ensures r - 0.5 <= 100.0 * p / w < r + 0.5
  {
    var x := 100.0 * p / w;
    DivMul(100.0 * p, w);
    MulMonoRealImp(r - 0.5, x, w);
    MulMonoRealImp(x, r + 0.5, w);
    MulMonoRealImp(r + 0.5, x, w);
  }

  lemma MulMonoRealImp(a: real, b: real, w: real)
    requires w > 0.0
    ensures a < b ==> a * w < b * w
    ensures a <= b ==> a * w <= b * w
  {
  }

  /** The whole is 100 per cent. */
  lemma RoundPercentWhole(whole: nat)
    requires whole > 0
    ensures RoundPercent(whole, whole) == 100
  {
    var d := 2 * whole;
    var r := RoundPercent(whole, whole);
    assert d * r <= 201 * whole < d * r + d;
    MulMonoImp(d, r, 99);
  }

  // ---------------------------------------------------------------------------
  // Strategy B: one vote per answer
  // ---------------------------------------------------------------------------

  /** The vote one answer casts when `classify` gives the animal an answer text
      is listed under (the quiz uses `AnimalForOption`): one point for that
      animal, nothing for a text that is not listed. */
  function Vote(classify: string -> Option<Animal>, r: QuizResponse): Tally {
    match classify(r.selectedOption)
    case Some(a) => NoScores.Add(a, 1)
    case None => NoScores
  }

  /** The `scores` record after the `forEach` over `responses`. */
  function Votes(classify: string -> Option<Animal>, responses: seq<QuizResponse>): (scores: Tally)
    ensures scores.Total() <= |responses|
    decreases |responses|
  {
    if responses == [] then NoScores
    else Votes(classify, responses[..|responses| - 1]).Plus(Vote(classify, responses[|responses| - 1]))
  }

  /** The answers whose text is not listed, in order. */
  function Unmapped(classify: string -> Option<Animal>, responses: seq<QuizResponse>): seq<QuizResponse>
    decreases |responses|
  {
    if responses == [] then []
    else
      var last := responses[|responses| - 1];
      Unmapped(classify, responses[..|responses| - 1]) + (if classify(last.selectedOption).None? then [last] else [])
  }

  /** One more answer adds its vote, or joins the unmapped ones. */
  lemma VotesPrefix(classify: string -> Option<Animal>, responses: seq<QuizResponse>, i: nat)
    requires i < |responses|
    ensures classify(responses[i].selectedOption).None? ==>
              Votes(classify, responses[..i + 1]) == Votes(classify, responses[..i]) &&
              Unmapped(classify, responses[..i + 1]) == Unmapped(classify, responses[..i]) + [responses[i]]
    ensures forall a :: classify(responses[i].selectedOption) == Some(a) ==>
              Votes(classify, responses[..i + 1]) == Votes(classify, responses[..i]).Add(a, 1) &&
              Unmapped(classify, responses[..i + 1]) == Unmapped(classify, responses[..i])
  {
    var prefix := responses[..i + 1];
    assert prefix[..i] == responses[..i];
    assert prefix[i] == responses[i];
    var t := Votes(classify, responses[..i]);
    match classify(responses[i].selectedOption)
    case Some(a) =>
      PlusSingle(t, a, 1);
    case None =>
      PlusNoScores(t);
  }

  /** The vote-counting loop shared by `determineAnimalTypeFromResponses` and
      `getBlendedResultsFromResponses`; `unmapped` is what the former logs. */
  method CountVotes(responses: seq<QuizResponse>) returns (scores: Tally, ghost unmapped: seq<QuizResponse>)
    ensures scores == Votes(AnimalForOption, responses)
    ensures unmapped == Unmapped(AnimalForOption, responses)
  {
    scores := NoScores;
    unmapped := [];
    var i := 0;
    while i < |responses|
      invariant 0 <= i <= |responses|
      invariant scores == Votes(AnimalForOption, responses[..i])
      invariant unmapped == Unmapped(AnimalForOption, responses[..i])
    {
      var response := responses[i];
      var normalizedTrait := NormalizeTrait(response.selectedOption);
      VotesPrefix(AnimalForOption, responses, i);
      match TraitToAnimal(normalizedTrait) {
        case Some(animal) =>
          scores := scores.Add(animal, 1);
        case None =>
          unmapped := unmapped + [response];
      }
      i := i + 1;
    }
    assert responses[..|responses|] == responses;
  }

  /** Counting two stretches of answers one after the other adds their votes. */
  lemma {:induction false} VotesAppend(classify: string -> Option<Animal>, xs: seq<QuizResponse>, ys: seq<QuizResponse>)
    ensures Votes(classify, xs + ys) == Votes(classify, xs).Plus(Votes(classify, ys))
    decreases |ys|
  {
    if ys == [] {
      assert xs + ys == xs;
      PlusNoScores(Votes(classify, xs));
    } else {
      var ys' := ys[..|ys| - 1];
      var y := ys[|ys| - 1];
      assert (xs + ys)[..|xs + ys| - 1] == xs + ys';
      assert (xs + ys)[|xs + ys| - 1] == y;
      VotesAppend(classify, xs, ys');
      PlusAssoc(Votes(classify, xs), Votes(classify, ys'), Vote(classify, y));
    }
  }

  /** The votes of a single answer. */
  lemma VotesSingle(classify: string -> Option<Animal>, r: QuizResponse)
    ensures Votes(classify, [r]) == Vote(classify, r)
  {
    assert [r][..0] == [];
    PlusNoScores(Vote(classify, r));
  }

  /** One more answer at the end adds its vote. */
  lemma VotesSnoc(classify: string -> Option<Animal>, xs: seq<QuizResponse>, x: QuizResponse)
    ensures Votes(classify, xs + [x]) == Votes(classify, xs).Plus(Vote(classify, x))
  {
    assert (xs + [x])[..|xs|] == xs;
  }

  /** The votes of `xs` with the answer at position `k` taken out, plus that
      answer's vote. */
  lemma VotesRemove(classify: string -> Option<Animal>, ys: seq<QuizResponse>, k: nat)
    requires k < |ys|
    ensures Votes(classify, ys) == Votes(classify, ys[..k] + ys[k + 1..]).Plus(Vote(classify, ys[k]))
  {
    var u, x, w := ys[..k], ys[k], ys[k + 1..];
    calc {
      Votes(classify, ys);
      { Around(ys, k); }
      Votes(classify, (u + [x]) + w);
      { VotesAppend(classify, u + [x], w); }
      Votes(classify, u + [x]).Plus(Votes(classify, w));
      { VotesSnoc(classify, u, x); }
      Votes(classify, u).Plus(Vote(classify, x)).Plus(Votes(classify, w));
      { PlusSwap(Votes(classify, u), Vote(classify, x), Votes(classify, w)); }
      Votes(classify, u).Plus(Votes(classify, w)).Plus(Vote(classify, x));
      { VotesAppend(classify, u, w); }
      Votes(classify, u + w).Plus(Vote(classify, x));
    }
  }

  /** A sequence is its part before `k`, its element at `k` and its part after. */
  lemma Around<T>(ys: seq<T>, k: nat)
    requires k < |ys|
    ensures ys == (ys[..k] + [ys[k]]) + ys[k + 1..]
  {
    assert ys[..k + 1] == ys[..k] + [ys[k]];
    assert ys == ys[..k + 1] + ys[k + 1..];
  }

  /** The order of the answers does not matter: any rearrangement of the same
      answers yields the same `scores` record. */
  lemma {:induction false} VotesPermutation(classify: string -> Option<Animal>, xs: seq<QuizResponse>, ys: seq<QuizResponse>)
    requires multiset(xs) == multiset(ys)
    ensures Votes(classify, xs) == Votes(classify, ys)
    decreases |xs|
  {
    if xs == [] {
      assert |ys| == |multiset(ys)| == 0;
    } else {
      var n := |xs| - 1;
      var x := xs[n];
      assert x in multiset(ys);
      var k :| 0 <= k < |ys| && ys[k] == x;
      var rest := ys[..k] + ys[k + 1..];
      assert ys == ys[..k] + [x] + ys[k + 1..];
      assert xs == xs[..n] + [x];
      assert multiset(xs) == multiset(xs[..n]) + multiset{x};
      assert multiset(ys) == multiset(ys[..k]) + multiset{x} + multiset(ys[k + 1..]);
      assert multiset(rest) == multiset(ys[..k]) + multiset(ys[k + 1..]);
      assert multiset(xs[..n]) == multiset(xs) - multiset{x};
      assert multiset(rest) == multiset(ys) - multiset{x};
      VotesPermutation(classify, xs[..n], rest);
      VotesRemove(classify, ys, k);
    }
  }

  /** An answer whose text is not listed changes no score. */
  lemma UnmappedIgnored(classify: string -> Option<Animal>, xs: seq<QuizResponse>, u: QuizResponse, ys: seq<QuizResponse>)
    requires classify(u.selectedOption).None?
    ensures Votes(classify, xs + [u] + ys) == Votes(classify, xs + ys)
  {
    var all := xs + [u] + ys;
    assert all[..|xs|] + all[|xs| + 1..] == xs + ys;
    VotesRemove(classify, all, |xs|);
    PlusNoScores(Votes(classify, xs + ys));
  }

  /** The answers whose text votes for `a`, in order. */
  function VotersFor(classify: string -> Option<Animal>, responses: seq<QuizResponse>, a: Animal): seq<QuizResponse>
    decreases |responses|
  {
    if responses == [] then []
    else
      var last := responses[|responses| - 1];
      VotersFor(classify, responses[..|responses| - 1], a) + (if classify(last.selectedOption) == Some(a) then [last] else [])
  }

  /** Every answer counts, repeated ones too: an animal's score is the number
      of answers whose text votes for it. */
  lemma {:induction false} VotesCount(classify: string -> Option<Animal>, responses: seq<QuizResponse>, a: Animal)
    ensures Votes(classify, responses).Get(a) == |VotersFor(classify, responses, a)|
    decreases |responses|
  {
    if responses != [] {
      VotesCount(classify, responses[..|responses| - 1], a);
    }
  }

  /** The voters for `a` are exactly the answers whose text votes for `a`. */
  lemma {:induction false} VotersForMembers(classify: string -> Option<Animal>, responses: seq<QuizResponse>, a: Animal)
    ensures forall r :: r in VotersFor(classify, responses, a) <==> r in responses && classify(r.selectedOption) == Some(a)
    decreases |responses|
  {
    if responses != [] {
      var init := responses[..|responses| - 1];
      VotersForMembers(classify, init, a);
      assert responses == init + [responses[|responses| - 1]];
    }
  }

  /** Every answer is either a vote or unmapped, so the votes never exceed the answers. */
  lemma {:induction false} VotesTotal(classify: string -> Option<Animal>, responses: seq<QuizResponse>)
    ensures Votes(classify, responses).Total() + |Unmapped(classify, responses)| == |responses|
    decreases |responses|
  {
    if responses != [] {
      var init := responses[..|responses| - 1];
      VotesTotal(classify, init);
      var t := Votes(classify, init);
      match classify(responses[|responses| - 1].selectedOption) {
        case Some(a) =>
          PlusSingle(t, a, 1);
          AddTotal(t, a, 1);
        case None =>
          PlusNoScores(t);
      }
    }
  }

  /** No animal gets more votes than there are answers. */
  lemma VotesBounded(classify: string -> Option<Animal>, responses: seq<QuizResponse>, a: Animal)
    ensures Votes(classify, responses).Get(a) <= |responses|
  {
    VotesTotal(classify, responses);
    Votes(classify, responses).GetAtMostTotal(a);
  }

  /** When every answer votes for `a`, `a` has all the votes. */
  lemma {:induction false} UnanimousVotes(classify: string -> Option<Animal>, responses: seq<QuizResponse>, a: Animal)
    requires forall r :: r in responses ==> classify(r.selectedOption) == Some(a)
    ensures Votes(classify, responses) == NoScores.Add(a, |responses|)
    decreases |responses|
  {
    if responses != [] {
      var init := responses[..|responses| - 1];
      assert responses[|responses| - 1] in responses;
      assert forall r :: r in init ==> r in responses;
      UnanimousVotes(classify, init, a);
      PlusSingle(NoScores.Add(a, |init|), a, 1);
      AddAdd(NoScores, a, |init|, 1);
    }
  }

  /** A `[animal, value]` pair of `Object.entries`. */
  datatype Entry = Entry(animal: Animal, value: nat)

  /** `Object.entries(record)`, in key order. */
  function Entries(t: Tally): (es: seq<Entry>)
    ensures |es| == 4
    ensures forall i :: 0 <= i < 4 ==> Rank(es[i].animal) == i
    ensures forall e :: e in es <==> e.value == t.Get(e.animal)
  {
    [Entry(Dove, t.dove), Entry(Owl, t.owl), Entry(Peacock, t.peacock), Entry(Shark, t.shark)]
  }

  /** Larger values first. */
  predicate Descending(es: seq<Entry>) {
    forall i, j :: 0 <= i < j < |es| ==> es[i].value >= es[j].value
  }

  /** The entries with the given value, in their original order. */
  function WithValue(es: seq<Entry>, v: nat): seq<Entry> {
    if es == [] then []
    else (if es[0].value == v then [es[0]] else []) + WithValue(es[1..], v)
  }

  /** The filter keeps exactly the entries of value `v`. */
  lemma {:induction false} WithValueMembers(es: seq<Entry>, v: nat)
    ensures forall e :: e in WithValue(es, v) <==> e in es && e.value == v
  {
    if es != [] {
      WithValueMembers(es[1..], v);
      assert es == [es[0]] + es[1..];
    }
  }

  /** Places `e` after the entries with a larger value and before the others. */
  function InsertDescending(e: Entry, sorted: seq<Entry>): (inserted: seq<Entry>)
    ensures |inserted| == |sorted| + 1
    decreases |sorted|
  {
    if sorted == [] || sorted[0].value <= e.value then [e] + sorted
    else [sorted[0]] + InsertDescending(e, sorted[1..])
  }

  /** The insertion adds `e` and loses nothing. */
  lemma {:induction false} InsertPermutes(e: Entry, sorted: seq<Entry>)
    ensures multiset(InsertDescending(e, sorted)) == multiset(sorted) + multiset{e}
    decreases |sorted|
  {
    if !(sorted == [] || sorted[0].value <= e.value) {
      InsertPermutes(e, sorted[1..]);
      assert sorted == [sorted[0]] + sorted[1..];
    }
  }

  /** The insertion adds `e` and nothing else. */
  lemma {:induction false} InsertMembers(e: Entry, sorted: seq<Entry>)
    ensures forall x :: x in InsertDescending(e, sorted) <==> x == e || x in sorted
    decreases |sorted|
  {
    if !(sorted == [] || sorted[0].value <= e.value) {
      InsertMembers(e, sorted[1..]);
      assert sorted == [sorted[0]] + sorted[1..];
    }
  }

  /** The insertion keeps a descending sequence descending. */
  lemma {:induction false} InsertSorted(e: Entry, sorted: seq<Entry>)
    requires Descending(sorted)
    ensures Descending(InsertDescending(e, sorted))
    decreases |sorted|
  {
    if sorted == [] || sorted[0].value <= e.value {
      var r := [e] + sorted;
      forall i, j | 0 <= i < j < |r| ensures r[i].value >= r[j].value {
        if i == 0 {
          assert r[j] == sorted[j - 1];
        } else {
          assert r[i] == sorted[i - 1] && r[j] == sorted[j - 1];
        }
      }
    } else {
      var s0 := sorted[0];
      var tail := sorted[1..];
      var rest := InsertDescending(e, tail);
      assert Descending(tail) by {
        forall i, j | 0 <= i < j < |tail| ensures tail[i].value >= tail[j].value {
          assert tail[i] == sorted[i + 1] && tail[j] == sorted[j + 1];
        }
      }
      InsertSorted(e, tail);
      InsertMembers(e, tail);
      var r := [s0] + rest;
      forall i, j | 0 <= i < j < |r| ensures r[i].value >= r[j].value {
        if i == 0 {
          assert r[j] in rest;
          if r[j] != e {
            var k :| 0 <= k < |tail| && tail[k] == r[j];
            assert tail[k] == sorted[k + 1];
          }
        } else {
          assert r[i] == rest[i - 1] && r[j] == rest[j - 1];
        }
      }
    }
  }

  /** The insertion puts `e` in front of the entries of its value: the order of
      equal entries already present is kept, which is what a stable sort needs. */
  lemma {:induction false} InsertStable(e: Entry, sorted: seq<Entry>, v: nat)
    ensures WithValue(InsertDescending(e, sorted), v) == (if e.value == v then [e] else []) + WithValue(sorted, v)
    decreases |sorted|
  {
    var mine := if e.value == v then [e] else [];
    if sorted == [] || sorted[0].value <= e.value {
      assert ([e] + sorted)[1..] == sorted;
    } else {
      var s0 := sorted[0];
      var tail := sorted[1..];
      var rest := InsertDescending(e, tail);
      InsertStable(e, tail, v);
      assert ([s0] + rest)[0] == s0 && ([s0] + rest)[1..] == rest;
      if s0.value == v {
        assert mine == [];
        assert WithValue(rest, v) == WithValue(tail, v);
        assert WithValue([s0] + rest, v) == [s0] + WithValue(rest, v);
      } else {
        assert WithValue([s0] + rest, v) == WithValue(rest, v);
        assert WithValue(sorted, v) == WithValue(tail, v);
      }
    }
  }

  /** `entries.sort(([, a], [, b]) => b - a)`, the stable sort of ECMAScript:
      an insertion sort taking the entries from the back. */
  function SortDescending(es: seq<Entry>): (sorted: seq<Entry>)
    ensures |sorted| == |es| && multiset(sorted) == multiset(es)
    decreases |es|
  {
    if es == [] then []
    else
      var rest := SortDescending(es[1..]);
      var sorted := InsertDescending(es[0], rest);
      InsertPermutes(es[0], rest);
      assert es == [es[0]] + es[1..];
      sorted
  }

  /** The sort is descending, a permutation of its input, and keeps entries of
      equal value in their input order. */
  lemma {:induction false} SortDescendingCorrect(es: seq<Entry>)
    ensures Descending(SortDescending(es))
    ensures multiset(SortDescending(es)) == multiset(es)
    ensures forall v :: WithValue(SortDescending(es), v) == WithValue(es, v)
    decreases |es|
  {
    if es != [] {
      var rest := SortDescending(es[1..]);
      SortDescendingCorrect(es[1..]);
      InsertSorted(es[0], rest);
      InsertPermutes(es[0], rest);
      assert es == [es[0]] + es[1..];
      forall v ensures WithValue(SortDescending(es), v) == WithValue(es, v) {
        InsertStable(es[0], rest, v);
      }
    }
  }

  /** Entries already in descending order are left where they are. */
  lemma {:induction false} SortKeepsDescending(es: seq<Entry>)
    requires Descending(es)
    ensures SortDescending(es) == es
    decreases |es|
  {
    if es != [] {
      var tail := es[1..];
      assert Descending(tail) by {
        forall i, j | 0 <= i < j < |tail| ensures tail[i].value >= tail[j].value {
          assert tail[i] == es[i + 1] && tail[j] == es[j + 1];
        }
      }
      SortKeepsDescending(tail);
      assert es == [es[0]] + tail;
    }
  }

  /** `x` comes before `y` in the sorted display: a larger value, or the same
      value and an earlier key. */
  predicate ShownBefore(x: Entry, y: Entry) {
    x.value > y.value || (x.value == y.value && Rank(x.animal) < Rank(y.animal))
  }

  /** Every entry comes before each later one: descending, with ties in key
      order. */
  predicate InDisplayOrder(es: seq<Entry>) {
    forall i, j :: 0 <= i < j < |es| ==> ShownBefore(es[i], es[j])
  }

  /** Dropping the first entry keeps the display order. */
  lemma DisplayOrderTail(es: seq<Entry>)
    requires es != [] && InDisplayOrder(es)
    ensures InDisplayOrder(es[1..])
  {
    var tail := es[1..];
    forall i, j | 0 <= i < j < |tail| ensures ShownBefore(tail[i], tail[j]) {
      assert tail[i] == es[i + 1] && tail[j] == es[j + 1];
    }
  }

  /** Inserting an entry whose key precedes every key present keeps the
      display order: it goes in front of the entries of its own value. */
  lemma {:induction false} InsertInDisplayOrder(e: Entry, sorted: seq<Entry>)
    requires InDisplayOrder(sorted)
    requires forall x :: x in sorted ==> Rank(e.animal) < Rank(x.animal)
    ensures InDisplayOrder(InsertDescending(e, sorted))
    decreases |sorted|
  {
    if sorted == [] || sorted[0].value <= e.value {
      var r := [e] + sorted;
      forall i, j | 0 <= i < j < |r| ensures ShownBefore(r[i], r[j]) {
        if i == 0 {
          assert r[j] == sorted[j - 1];
          if j > 1 {
            assert ShownBefore(sorted[0], sorted[j - 1]);
          }
        } else {
          assert r[i] == sorted[i - 1] && r[j] == sorted[j - 1];
        }
      }
    } else {
      var s0 := sorted[0];
      var tail := sorted[1..];
      var rest := InsertDescending(e, tail);
      DisplayOrderTail(sorted);
      InsertInDisplayOrder(e, tail);
      InsertMembers(e, tail);
      var r := [s0] + rest;
      forall i, j | 0 <= i < j < |r| ensures ShownBefore(r[i], r[j]) {
        if i == 0 {
          assert r[j] in rest;
          if r[j] != e {
            var k :| 0 <= k < |tail| && tail[k] == r[j];
            assert tail[k] == sorted[k + 1];
          }
        } else {
          assert r[i] == rest[i - 1] && r[j] == rest[j - 1];
        }
      }
    }
  }

  /** Sorting entries laid out in key order puts them in display order. */
  lemma {:induction false} SortInDisplayOrder(es: seq<Entry>)
    requires forall i, j :: 0 <= i < j < |es| ==> Rank(es[i].animal) < Rank(es[j].animal)
    ensures InDisplayOrder(SortDescending(es))
    decreases |es|
  {
    if es != [] {
      var tail := es[1..];
      forall i, j | 0 <= i < j < |tail| ensures Rank(tail[i].animal) < Rank(tail[j].animal) {
        assert tail[i] == es[i + 1] && tail[j] == es[j + 1];
      }
      SortInDisplayOrder(tail);
      SortedMembers(tail);
      forall x | x in SortDescending(tail) ensures Rank(es[0].animal) < Rank(x.animal) {
        var k :| 0 <= k < |tail| && tail[k] == x;
        assert tail[k] == es[k + 1];
      }
      InsertInDisplayOrder(es[0], SortDescending(tail));
    }
  }

  /** What the sort makes of a record's entries: four entries, the first of
      them with a maximal value and, among those of that value, first in key order. */
  lemma SortedEntriesFacts(t: Tally)
    ensures var s := SortDescending(Entries(t));
            |s| == 4 && s[0] in Entries(t) &&
            (forall e :: e in s <==> e in Entries(t)) &&
            (forall b :: t.Get(b) <= s[0].value) &&
            (forall b :: t.Get(b) == s[0].value ==> Rank(s[0].animal) <= Rank(b))
  {
    var es := Entries(t);
    var s := SortDescending(es);
    SortedMembers(es);
    SortedFirstIsMax(es);
    forall b ensures t.Get(b) <= s[0].value {
      assert Entry(b, t.Get(b)) in es;
    }
    var m := s[0].value;
    SortDescendingCorrect(es);
    assert WithValue(s, m) == [s[0]] + WithValue(s[1..], m);
    forall b | t.Get(b) == m ensures Rank(s[0].animal) <= Rank(b) {
      FirstOfWithValueRanked(es, m, Entry(b, m), 0);
    }
  }

  /** The sort keeps the length and the members of its input. */
  lemma SortedMembers(es: seq<Entry>)
    ensures |SortDescending(es)| == |es|
    ensures forall e :: e in SortDescending(es) <==> e in es
  {
    var s := SortDescending(es);
    SortDescendingCorrect(es);
    assert |s| == |multiset(s)| == |multiset(es)| == |es|;
    forall e ensures e in s <==> e in es {
      assert e in s <==> e in multiset(s);
    }
  }

  /** The first entry of the sort has the largest value. */
  lemma SortedFirstIsMax(es: seq<Entry>)
    requires es != []
    ensures SortDescending(es) != [] && forall e :: e in es ==> e.value <= SortDescending(es)[0].value
  {
    var s := SortDescending(es);
    SortedMembers(es);
    SortDescendingCorrect(es);
    forall e | e in es ensures e.value <= s[0].value {
      var k :| 0 <= k < |s| && s[k] == e;
    }
  }

  /** Entries laid out by rank from `off` on: the first one of a given value
      has the least rank among them. */
  lemma {:induction false} FirstOfWithValueRanked(es: seq<Entry>, v: nat, e: Entry, off: nat)
    requires forall i :: 0 <= i < |es| ==> Rank(es[i].animal) == i + off
    requires e in es && e.value == v
    ensures WithValue(es, v) != [] && Rank(WithValue(es, v)[0].animal) <= Rank(e.animal)
    decreases |es|
  {
    if es[0].value != v {
      assert e in es[1..];
      forall i | 0 <= i < |es[1..]| ensures Rank(es[1..][i].animal) == i + off + 1 {
        assert es[1..][i] == es[i + 1];
      }
      FirstOfWithValueRanked(es[1..], v, e, off + 1);
    } else {
      var k :| 0 <= k < |es| && es[k] == e;
    }
  }

  /** The first of the tied entries once they are sorted with `localeCompare`
      on the identifiers: the one of least `Rank`. */
  function FirstAlphabetically(es: seq<Entry>): (e: Entry)
    requires es != []
    ensures e in es
    ensures forall x :: x in es ==> Rank(e.animal) <= Rank(x.animal)
  {
    if |es| == 1 then es[0]
    else
      var best := FirstAlphabetically(es[1..]);
      assert forall x :: x in es ==> x == es[0] || x in es[1..];
      if Rank(es[0].animal) <= Rank(best.animal) then es[0] else best
  }

  /** The result Strategy B promises for a `scores` record: an animal with a
      maximal score that, among the animals with that score, comes first
      alphabetically. */
  predicate IsAlphabeticalWinner(scores: Tally, w: Animal) {
    (forall b :: scores.Get(b) <= scores.Get(w)) &&
    (forall b :: scores.Get(b) == scores.Get(w) ==> Rank(w) <= Rank(b))
  }

  /** At most one animal wins that way. */
  lemma AlphabeticalWinnerUnique(scores: Tally, w: Animal, w': Animal)
    requires IsAlphabeticalWinner(scores, w) && IsAlphabeticalWinner(scores, w')
    ensures w == w'
  {
    RankInjective(w, w');
  }

  /** The tie-breaking of `determineAnimalTypeFromResponses` on a `scores`
      record: sort the entries by descending score, keep those equal to the
      first, and, when more than one is left, take the alphabetically first.
      The winner is also simply the first entry of the stable sort. */
  method ClassifyAlphabetical(scores: Tally) returns (animal: Animal)
    ensures IsAlphabeticalWinner(scores, animal)
    ensures animal == SortDescending(Entries(scores))[0].animal
  {
    var sortedEntries := SortDescending(Entries(scores));
    SortedEntriesFacts(scores);
    var maxScore := sortedEntries[0].value;
    var tiedAnimals := WithValue(sortedEntries, maxScore);
    WithValueMembers(sortedEntries, maxScore);
    assert sortedEntries[0] in tiedAnimals;
    if |tiedAnimals| > 1 {
      var f := FirstAlphabetically(tiedAnimals);
      assert f.value == maxScore && f in sortedEntries;
      RankInjective(f.animal, sortedEntries[0].animal);
      animal := f.animal;
    } else {
      animal := sortedEntries[0].animal;
    }
  }

  /** `determineAnimalTypeFromResponses`: an animal with the most votes, the
      alphabetically first among several. */
  method DetermineAnimalTypeFromResponses(responses: seq<QuizResponse>) returns (animal: Animal, ghost unmapped: seq<QuizResponse>)
    ensures IsAlphabeticalWinner(Votes(AnimalForOption, responses), animal)
    ensures unmapped == Unmapped(AnimalForOption, responses)
  {
    var scores;
    scores, unmapped := CountVotes(responses);
    animal := ClassifyAlphabetical(scores);
  }

  /** The percentage record of `getBlendedResultsFromResponses` for the vote
      counts `scores` of `count` answers (`responses.length || 1` is the divisor). */
  function ShareOfResponses(scores: Tally, count: nat): (shares: Tally)
    ensures forall a :: scores.Get(a) <= count ==> shares.Get(a) <= 100
    ensures forall a :: scores.Get(a) == 0 ==> shares.Get(a) == 0
  {
    var totalResponses := if count == 0 then 1 else count;
    Tally(RoundPercent(scores.dove, totalResponses), RoundPercent(scores.owl, totalResponses),
          RoundPercent(scores.peacock, totalResponses), RoundPercent(scores.shark, totalResponses))
  }

  /** Reading one animal off the percentage record of Strategy B. */
  lemma ShareOfResponsesGet(scores: Tally, count: nat, a: Animal)
    requires count > 0
    ensures ShareOfResponses(scores, count).Get(a) == RoundPercent(scores.Get(a), count)
  {
  }

  /** `getBlendedResultsFromResponses`: each animal's votes as a rounded share
      of all answers, unmapped ones included; every value lies in 0..100. */
  method GetBlendedResultsFromResponses(responses: seq<QuizResponse>) returns (percentages: Tally)
    ensures percentages == ShareOfResponses(Votes(AnimalForOption, responses), |responses|)
    ensures forall a :: percentages.Get(a) <= 100
  {
    var scores, _ := CountVotes(responses);
    var totalResponses := if |responses| == 0 then 1 else |responses|;
    percentages := Tally(RoundPercent(scores.dove, totalResponses), RoundPercent(scores.owl, totalResponses),
                         RoundPercent(scores.peacock, totalResponses), RoundPercent(scores.shark, totalResponses));
    forall a ensures percentages.Get(a) <= 100 {
      ShareOfResponsesGet(scores, totalResponses, a);
      VotesBounded(AnimalForOption, responses, a);
    }
  }

  /** Each percentage of Strategy B is the rounded share of the answers that
      vote for that animal. */
  lemma ShareOfResponsesMeaning(classify: string -> Option<Animal>, responses: seq<QuizResponse>, a: Animal)
    requires responses != []
    ensures var p := ShareOfResponses(Votes(classify, responses), |responses|).Get(a) as real;
            p - 0.5 <= 100.0 * (|VotersFor(classify, responses, a)| as real) / (|responses| as real) < p + 0.5
  {
    var n := |responses|;
    var v := Votes(classify, responses).Get(a);
    VotesCount(classify, responses, a);
    ShareOfResponsesGet(Votes(classify, responses), n, a);
    RoundPercentNearest(v, n);
  }

  /** No answers: no votes, every percentage 0, and the dove, first of the
      four tied animals, wins. */
  lemma NoResponses(classify: string -> Option<Animal>)
    ensures Votes(classify, []) == NoScores
    ensures ShareOfResponses(Votes(classify, []), 0) == NoScores
    ensures IsAlphabeticalWinner(Votes(classify, []), Dove)
  {
  }

  /** A unanimous quiz: that animal wins with 100 per cent, the others get 0. */
  lemma UnanimousResult(classify: string -> Option<Animal>, responses: seq<QuizResponse>, a: Animal)
    requires responses != []
    requires forall r :: r in responses ==> classify(r.selectedOption) == Some(a)
    ensures IsAlphabeticalWinner(Votes(classify, responses), a)
    ensures ShareOfResponses(Votes(classify, responses), |responses|) == NoScores.Add(a, 100)
  {
    UnanimousVotes(classify, responses, a);
    UnanimousWinner(a, |responses|);
    UnanimousShares(a, |responses|);
  }

  /** The only animal with votes wins. */
  lemma UnanimousWinner(a: Animal, count: nat)
    requires count > 0
    ensures IsAlphabeticalWinner(NoScores.Add(a, count), a)
  {
  }

  /** All `count` answers for one animal: 100 per cent for it, 0 for the others. */
  lemma UnanimousShares(a: Animal, count: nat)
    requires count > 0
    ensures ShareOfResponses(NoScores.Add(a, count), count) == NoScores.Add(a, 100)
  {
    var t := NoScores.Add(a, count);
    RoundPercentWhole(count);
    forall b ensures ShareOfResponses(t, count).Get(b) == NoScores.Add(a, 100).Get(b) {
      ShareOfResponsesGet(t, count, b);
    }
    TallyExt(ShareOfResponses(t, count), NoScores.Add(a, 100));
  }

  /** Eight, six, four and two votes of twenty answers. */
  lemma MixedShares()
    ensures ShareOfResponses(Tally(8, 6, 4, 2), 20) == Tally(40, 30, 20, 10)
  {
    assert RoundPercent(8, 20) == 40 && RoundPercent(6, 20) == 30;
    assert RoundPercent(4, 20) == 20 && RoundPercent(2, 20) == 10;
  }

  /** Five votes each of twenty answers. */
  lemma EvenShares()
    ensures ShareOfResponses(Tally(5, 5, 5, 5), 20) == Tally(25, 25, 25, 25)
  {
    assert RoundPercent(5, 20) == 25;
  }

  /** Seven, seven, three and three votes of twenty answers. */
  lemma PairedShares()
    ensures ShareOfResponses(Tally(7, 7, 3, 3), 20) == Tally(35, 35, 15, 15)
  {
    assert RoundPercent(7, 20) == 35 && RoundPercent(3, 20) == 15;
  }

  /** One vote each for three animals out of three answers: the rounded
      percentages add up to 99, not 100. */
  lemma ThirdsShares()
    ensures ShareOfResponses(Tally(1, 1, 1, 0), 3) == Tally(33, 33, 33, 0)
  {
    assert RoundPercent(1, 3) == 33;
  }

  /** A dove-owl tie goes to the dove, the alphabetically first, and the
      stable sort already puts the dove first. */
  lemma DoveOwlTie()
    ensures IsAlphabeticalWinner(Tally(10, 10, 0, 0), Dove)
    ensures !IsAlphabeticalWinner(Tally(10, 10, 0, 0), Owl)
    ensures SortDescending(Entries(Tally(10, 10, 0, 0)))[0].animal == Dove
  {
    assert Tally(10, 10, 0, 0).Get(Dove) == 10;
  }

  // ---------------------------------------------------------------------------
  // Strategy A: weighted trait matching
  // ---------------------------------------------------------------------------

  /** `strengths.some(strength => strength.toLowerCase().includes(trait.toLowerCase()))`. */
  predicate MentionedInStrengths(traitLabel: string, strengths: seq<string>)
    ensures MentionedInStrengths(traitLabel, strengths) ==> strengths != []
    ensures traitLabel == [] ==> (MentionedInStrengths(traitLabel, strengths) <==> strengths != [])
  {
    assert strengths != [] ==> Contains(Lower(strengths[0]), Lower([]));
    exists strength :: strength in strengths && Contains(Lower(strength), Lower(traitLabel))
  }

  /** The points one trait earns one archetype: 2 for an exact, case-sensitive
      defining trait, plus 1 when it occurs, ignoring case, in a strength phrase. */
  function TraitPoints(traitLabel: string, archetype: Archetype): (p: nat)
    ensures p <= 3
    ensures p >= 2 <==> traitLabel in archetype.traits
    ensures (p == 1 || p == 3) <==> MentionedInStrengths(traitLabel, archetype.strengths)
  {
    (if traitLabel in archetype.traits then 2 else 0) + (if MentionedInStrengths(traitLabel, archetype.strengths) then 1 else 0)
  }

  /** The position of an archetype in `animalArchetypes`, the order the inner
      `forEach` visits them in. */
  function DeclarationIndex(a: Animal): (i: nat)
    ensures i < |ArchetypeOrder| && ArchetypeOrder[i] == a
  {
    match a
    case Dove => 0
    case Peacock => 1
    case Owl => 2
    case Shark => 3
  }

  /** Each archetype is declared once. */
  lemma DeclaredOnce(j: nat)
    requires j < |ArchetypeOrder|
    ensures DeclarationIndex(ArchetypeOrder[j]) == j
  {
  }

  /** The points one trait earns every archetype of the table `archetypes`
      (the quiz's table is `ArchetypeOf`). */
  function TraitTally(archetypes: Animal -> Archetype, traitLabel: string): Tally {
    Tally(TraitPoints(traitLabel, archetypes(Dove)), TraitPoints(traitLabel, archetypes(Owl)),
          TraitPoints(traitLabel, archetypes(Peacock)), TraitPoints(traitLabel, archetypes(Shark)))
  }

  /** The `scores` record after the nested `forEach` over `traits`. */
  function TraitScores(archetypes: Animal -> Archetype, traits: seq<string>): Tally
    decreases |traits|
  {
    if traits == [] then NoScores
    else TraitScores(archetypes, traits[..|traits| - 1]).Plus(TraitTally(archetypes, traits[|traits| - 1]))
  }

  lemma TraitScoresPrefix(archetypes: Animal -> Archetype, traits: seq<string>, i: nat)
    requires i < |traits|
    ensures TraitScores(archetypes, traits[..i + 1]) == TraitScores(archetypes, traits[..i]).Plus(TraitTally(archetypes, traits[i]))
  {
    assert traits[..i + 1][..i] == traits[..i];
  }

  /** The two `if`s of the inner `forEach` add `points` to one archetype: the
      other archetypes keep their scores. */
  lemma AddedPoints(current: Tally, scores: Tally, a: Animal, points: nat)
    requires scores.Get(a) == current.Get(a) + points
    requires forall b :: b != a ==> scores.Get(b) == current.Get(b)
    ensures scores == current.Add(a, points)
  {
    TallyExt(scores, current.Add(a, points));
  }

  /** The inner `forEach`: one trait's points added to every archetype of
      `archetypes`, visited in declaration order. */
  method AddTraitPoints(archetypes: Animal -> Archetype, traitLabel: string, before: Tally) returns (scores: Tally)
    ensures scores == before.Plus(TraitTally(archetypes, traitLabel))
  {
    scores := before;
    var j := 0;
    while j < |ArchetypeOrder|
      invariant 0 <= j <= |ArchetypeOrder|
      invariant forall a :: scores.Get(a) == before.Get(a) + (if DeclarationIndex(a) < j then TraitPoints(traitLabel, archetypes(a)) else 0)
    {
      var animalType := ArchetypeOrder[j];
      var archetype := archetypes(animalType);
      ghost var current := scores;
      if traitLabel in archetype.traits {
        scores := scores.Add(animalType, 2);
      }
      if MentionedInStrengths(traitLabel, archetype.strengths) {
        scores := scores.Add(animalType, 1);
      }
      AddedPoints(current, scores, animalType, TraitPoints(traitLabel, archetype));
      DeclaredOnce(j);
      j := j + 1;
    }
    TallyExt(scores, before.Plus(TraitTally(archetypes, traitLabel)));
  }

  /** The trait-scoring loop shared by `determineAnimalType` and
      `getBlendedResults`, over the archetype table `archetypes`. */
  method ScoreTraits(archetypes: Animal -> Archetype, selectedTraits: seq<string>) returns (scores: Tally)
    ensures scores == TraitScores(archetypes, selectedTraits)
  {
    scores := NoScores;
    var i := 0;
    while i < |selectedTraits|
      invariant 0 <= i <= |selectedTraits|
      invariant scores == TraitScores(archetypes, selectedTraits[..i])
    {
      scores := AddTraitPoints(archetypes, selectedTraits[i], scores);
      TraitScoresPrefix(archetypes, selectedTraits, i);
      i := i + 1;
    }
    assert selectedTraits[..|selectedTraits|] == selectedTraits;
  }

  /** `reduce((a, b) => scores[a] > scores[b] ? a : b)` from `champion` over `rest`. */
  function ReduceWinner(scores: Tally, champion: Animal, rest: seq<Animal>): (winner: Animal)
    ensures winner == champion || winner in rest
    ensures scores.Get(winner) >= scores.Get(champion)
    ensures forall a :: a in rest ==> scores.Get(winner) >= scores.Get(a)
    decreases |rest|
  {
    if rest == [] then champion
    else ReduceWinner(scores, if scores.Get(champion) > scores.Get(rest[0]) then champion else rest[0], rest[1..])
  }

  /** The result Strategy A promises for a `scores` record: an animal with a
      maximal score that, among the animals with that score, comes last in key
      order. */
  predicate IsLastWinner(scores: Tally, w: Animal) {
    (forall b :: scores.Get(b) <= scores.Get(w)) &&
    (forall b :: scores.Get(b) == scores.Get(w) ==> Rank(b) <= Rank(w))
  }

  /** The tie-breaking of `determineAnimalType`: the reduction over the entries
      dove, owl, peacock and shark. */
  function ClassifyLastMax(scores: Tally): Animal {
    ReduceWinner(scores, Dove, [Owl, Peacock, Shark])
  }

  /** The reduction keeps the later entry unless the earlier is strictly
      greater, so its result is the last animal in key order with a maximal score. */
  lemma ClassifyLastMaxCorrect(scores: Tally)
    ensures IsLastWinner(scores, ClassifyLastMax(scores))
  {
    var third := PairwiseLastMax(scores);
    assert [Owl, Peacock, Shark][1..] == [Peacock, Shark];
    assert [Peacock, Shark][1..] == [Shark];
    assert ReduceWinner(scores, Dove, [Owl, Peacock, Shark]) == third;
    PairwiseLastMaxCorrect(scores);
  }

  /** The three comparisons of the reduction written out. */
  function PairwiseLastMax(scores: Tally): Animal {
    var first := if scores.dove > scores.owl then Dove else Owl;
    var second := if scores.Get(first) > scores.peacock then first else Peacock;
    if scores.Get(second) > scores.shark then second else Shark
  }

  lemma PairwiseLastMaxCorrect(scores: Tally)
    ensures IsLastWinner(scores, PairwiseLastMax(scores))
  {
  }

  /** At most one animal wins that way. */
  lemma LastWinnerUnique(scores: Tally, w: Animal, w': Animal)
    requires IsLastWinner(scores, w) && IsLastWinner(scores, w')
    ensures w == w'
  {
    RankInjective(w, w');
  }

  /** `determineAnimalType`: an archetype with the highest Strategy A score, the
      last in key order among several. */
  method DetermineAnimalType(selectedTraits: seq<string>) returns (animal: Animal)
    ensures IsLastWinner(TraitScores(ArchetypeOf, selectedTraits), animal)
  {
    var scores := ScoreTraits(ArchetypeOf, selectedTraits);
    animal := ReduceWinner(scores, Dove, [Owl, Peacock, Shark]);
    ClassifyLastMaxCorrect(scores);
  }

  /** The percentage record of `getBlendedResults`: each score as a rounded
      share of the total, or all zeros when the total is zero. */
  function ShareOfTotal(scores: Tally): (shares: Tally)
    ensures forall a :: shares.Get(a) <= 100
    ensures scores.Total() == 0 ==> shares == NoScores
  {
    var totalScore := scores.Total();
    if totalScore > 0 then
      Tally(RoundPercent(scores.dove, totalScore), RoundPercent(scores.owl, totalScore),
            RoundPercent(scores.peacock, totalScore), RoundPercent(scores.shark, totalScore))
    else NoScores
  }

  /** Every share of the total lies in 0..100, and all are zero exactly when
      the total is zero. */
  lemma ShareOfTotalBounds(scores: Tally)
    ensures forall a :: ShareOfTotal(scores).Get(a) <= 100
    ensures scores.Total() == 0 <==> ShareOfTotal(scores) == NoScores
  {
    var t := scores.Total();
    if t > 0 {
      var a := ClassifyLastMax(scores);
      ClassifyLastMaxCorrect(scores);
      assert 4 * scores.Get(a) >= t by {
        assert scores.dove <= scores.Get(a) && scores.owl <= scores.Get(a);
        assert scores.peacock <= scores.Get(a) && scores.shark <= scores.Get(a);
      }
      RoundPercentPositive(scores.Get(a), t);
      forall b ensures ShareOfTotal(scores).Get(b) <= 100 {
        scores.GetAtMostTotal(b);
        ShareOfTotalGet(scores, b);
      }
    }
  }

  /** Reading one animal off a positive-total percentage record of Strategy A. */
  lemma ShareOfTotalGet(scores: Tally, a: Animal)
    requires scores.Total() > 0
    ensures ShareOfTotal(scores).Get(a) == RoundPercent(scores.Get(a), scores.Total())
  {
  }

  /** A part of at least a quarter of the whole rounds to at least 1 per cent. */
  lemma RoundPercentPositive(part: nat, whole: nat)
    requires whole > 0 && 4 * part >= whole
    ensures RoundPercent(part, whole) >= 1
  {
    var d := 2 * whole;
    var r := RoundPercent(part, whole);
    assert d * r + d > 200 * part + whole >= d;
    MulMonoImp(d, r, 0);
  }

  /** `getBlendedResults`: every value lies in 0..100, and all are zero exactly
      when no trait scored anything. */
  method GetBlendedResults(selectedTraits: seq<string>) returns (percentages: Tally)
    ensures percentages == ShareOfTotal(TraitScores(ArchetypeOf, selectedTraits))
    ensures forall a :: percentages.Get(a) <= 100
    ensures TraitScores(ArchetypeOf, selectedTraits).Total() == 0 <==> percentages == NoScores
  {
    var scores := ScoreTraits(ArchetypeOf, selectedTraits);
    var totalScore := scores.Total();
    if totalScore > 0 {
      percentages := Tally(RoundPercent(scores.dove, totalScore), RoundPercent(scores.owl, totalScore),
                           RoundPercent(scores.peacock, totalScore), RoundPercent(scores.shark, totalScore));
    } else {
      percentages := NoScores;
    }
    ShareOfTotalBounds(scores);
  }

  /** The empty trait occurs in every strength phrase and is no defining trait
      of an archetype with a strength, so it earns that archetype one point. */
  lemma EmptyTraitPoints(archetype: Archetype)
    requires archetype.strengths != [] && "" !in archetype.traits
    ensures TraitPoints("", archetype) == 1
  {
    ContainsEmpty(Lower(archetype.strengths[0]));
    assert Lower("") == "";
    assert archetype.strengths[0] in archetype.strengths;
  }

  /** The empty trait earns one point from every archetype of a table whose
      archetypes all have a strength phrase and no empty defining trait. */
  lemma EmptyTraitTally(archetypes: Animal -> Archetype)
    requires forall a :: archetypes(a).strengths != [] && "" !in archetypes(a).traits
    ensures TraitTally(archetypes, "") == Tally(1, 1, 1, 1)
  {
    EmptyTraitPoints(archetypes(Dove));
    EmptyTraitPoints(archetypes(Owl));
    EmptyTraitPoints(archetypes(Peacock));
    EmptyTraitPoints(archetypes(Shark));
  }

  /** The quiz's archetypes all have strength phrases and no empty defining trait. */
  lemma QuizArchetypesNonEmpty(a: Animal)
    ensures ArchetypeOf(a).strengths != [] && "" !in ArchetypeOf(a).traits
  {
    assert DoveArchetype.strengths != [] && "" !in DoveArchetype.traits;
    assert OwlArchetype.strengths != [] && "" !in OwlArchetype.traits;
    assert PeacockArchetype.strengths != [] && "" !in PeacockArchetype.traits;
    assert SharkArchetype.strengths != [] && "" !in SharkArchetype.traits;
  }

  /** Strategy A on the empty label alone: every archetype ties at one point
      and the last of the four, the shark, wins. */
  lemma EmptyLabelExample()
    ensures TraitTally(ArchetypeOf, "") == Tally(1, 1, 1, 1)
    ensures ClassifyLastMax(TraitTally(ArchetypeOf, "")) == Shark
  {
    forall a ensures ArchetypeOf(a).strengths != [] && "" !in ArchetypeOf(a).traits {
      QuizArchetypesNonEmpty(a);
    }
    EmptyTraitTally(ArchetypeOf);
    ClassifyLastMaxCorrect(Tally(1, 1, 1, 1));
  }

  /** Strategy A with no labels: the shark wins and every percentage is 0. */
  lemma NoLabelsExample()
    ensures ClassifyLastMax(TraitScores(ArchetypeOf, [])) == Shark
    ensures ShareOfTotal(TraitScores(ArchetypeOf, [])) == NoScores
  {
    ClassifyLastMaxCorrect(NoScores);
  }
}
