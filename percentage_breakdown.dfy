/** The derived values of `components/quiz/percentage-breakdown.tsx`: the
    entries of the percentage record sorted for display, the primary animal,
    the bar widths, the "with traits from" summary and the cohort count. The
    markup and styling are not modelled. */
module PercentageBreakdown {
  import opened Text
  import opened QuizData

  // ---------------------------------------------------------------------------
  // Sorting and the primary animal
  // ---------------------------------------------------------------------------

  /** `sortedAnimals`: the four entries of `percentages`, largest first, with
      entries of equal percentage in key order (the sort is stable). */
  function SortedAnimals(percentages: Tally): (sorted: seq<Entry>)
    ensures |sorted| == 4
    ensures Descending(sorted)
    ensures multiset(sorted) == multiset(Entries(percentages))
    ensures forall v :: WithValue(sorted, v) == WithValue(Entries(percentages), v)
  {
    var es := Entries(percentages);
    SortDescendingCorrect(es);
    SortedMembers(es);
    SortDescending(es)
  }

  /** The sorted entries are in display order: descending, and ties in key
      order. */
  lemma SortedInDisplayOrder(percentages: Tally)
    ensures InDisplayOrder(SortedAnimals(percentages))
  {
    SortInDisplayOrder(Entries(percentages));
  }

  /** `primaryAnimal`: the first sorted entry, an animal with a maximal
      percentage, the first in key order among equals. */
  function PrimaryAnimal(percentages: Tally): (primary: Entry)
    ensures primary in Entries(percentages)
    ensures forall b :: percentages.Get(b) <= primary.value
    ensures forall b :: percentages.Get(b) == primary.value ==> Rank(primary.animal) <= Rank(b)
  {
    SortedEntriesFacts(percentages);
    SortedAnimals(percentages)[0]
  }

  /** A sorted entry is one of the record's entries, so it carries the
      percentage the record gives its animal. */
  lemma SortedEntryValue(percentages: Tally, k: nat)
    requires k < 4
    ensures SortedAnimals(percentages)[k].value == percentages.Get(SortedAnimals(percentages)[k].animal)
  {
    var s := SortedAnimals(percentages);
    assert s[k] in multiset(s);
  }

  /** Each animal appears once among the sorted entries. */
  lemma SortedAnimalsDistinct(percentages: Tally, i: nat, j: nat)
    requires i < j < 4
    ensures SortedAnimals(percentages)[i].animal != SortedAnimals(percentages)[j].animal
  {
    SortedInDisplayOrder(percentages);
    SortedEntryValue(percentages, i);
    SortedEntryValue(percentages, j);
  }

  /** The record's entries name four different animals. */
  lemma EntriesOnce(percentages: Tally, e: Entry)
    ensures multiset(Entries(percentages))[e] <= 1
  {
  }

  /** `Math.max(percentage, 2)`: the width of a bar, never below 2 per cent,
      and the percentage itself from 2 on. */
  function BarWidth(percentage: nat): (width: nat)
    ensures width >= 2 && width >= percentage
    ensures width == percentage || width == 2
  {
    if percentage > 2 then percentage else 2
  }

  // ---------------------------------------------------------------------------
  // The summary sentence
  // ---------------------------------------------------------------------------

  /** `sortedAnimals.filter(([, percentage]) => percentage > 0)`. */
  function NonZero(es: seq<Entry>): (kept: seq<Entry>)
    ensures forall e :: e in kept <==> e in es && e.value > 0
    decreases |es|
  {
    if es == [] then []
    else (if es[0].value > 0 then [es[0]] else []) + NonZero(es[1..])
  }

  /** The entries are split between the positive ones and those of value 0. */
  lemma {:induction false} NonZeroCount(es: seq<Entry>)
    ensures |NonZero(es)| + |WithValue(es, 0)| == |es|
    decreases |es|
  {
    if es != [] {
      NonZeroCount(es[1..]);
    }
  }

  /** There is a positive entry exactly when the filter keeps something. */
  lemma {:induction false} NonZeroOne(es: seq<Entry>)
    ensures NonZero(es) != [] <==> exists i :: 0 <= i < |es| && es[i].value > 0
    decreases |es|
  {
    if es != [] {
      var tail := es[1..];
      NonZeroOne(tail);
      if es[0].value == 0 {
        assert NonZero(es) == NonZero(tail);
        forall i | 0 < i < |es| ensures es[i] == tail[i - 1] { }
      }
    }
  }

  /** Two positive positions leave at least two entries in the filter. */
  lemma {:induction false} NonZeroTwoFrom(es: seq<Entry>, i: nat, j: nat)
    requires i < j < |es| && es[i].value > 0 && es[j].value > 0
    ensures |NonZero(es)| > 1
    decreases |es|
  {
    var tail := es[1..];
    assert NonZero(es) == (if es[0].value > 0 then [es[0]] else []) + NonZero(tail);
    assert tail[j - 1] == es[j];
    if i == 0 {
      NonZeroOne(tail);
    } else {
      assert tail[i - 1] == es[i];
      NonZeroTwoFrom(tail, i - 1, j - 1);
    }
  }

  /** At least two entries in the filter come from two positive positions. */
  lemma {:induction false} NonZeroTwoTo(es: seq<Entry>) returns (i: nat, j: nat)
    requires |NonZero(es)| > 1
    ensures i < j < |es| && es[i].value > 0 && es[j].value > 0
    decreases |es|
  {
    var tail := es[1..];
    assert NonZero(es) == (if es[0].value > 0 then [es[0]] else []) + NonZero(tail);
    if es[0].value > 0 {
      NonZeroOne(tail);
      var k :| 0 <= k < |tail| && tail[k].value > 0;
      i, j := 0, k + 1;
    } else {
      var i', j' := NonZeroTwoTo(tail);
      i, j := i' + 1, j' + 1;
    }
    assert es[j] == tail[j - 1];
  }

  /** The summary names other animals ("with traits from ...") when more
      than one entry is positive. */
  predicate ShowsTraitsClause(percentages: Tally)
    ensures ShowsTraitsClause(percentages) <==>
            exists a, b :: a != b && percentages.Get(a) > 0 && percentages.Get(b) > 0
  {
    TraitsClauseIff(percentages);
    |NonZero(SortedAnimals(percentages))| > 1
  }

  /** More than one sorted entry is positive exactly when two different
      animals have a positive percentage. */
  lemma TraitsClauseIff(percentages: Tally)
    ensures |NonZero(SortedAnimals(percentages))| > 1 <==>
            exists a, b :: a != b && percentages.Get(a) > 0 && percentages.Get(b) > 0
  {
    var s := SortedAnimals(percentages);
    var es := Entries(percentages);
    var p := percentages;
    NonZeroCount(s);
    NonZeroCount(es);
    assert |NonZero(s)| == |NonZero(es)|;
    if |NonZero(es)| > 1 {
      var i, j := NonZeroTwoTo(es);
      assert es[i] in es && es[j] in es;
      assert es[i].animal != es[j].animal;
      assert p.Get(es[i].animal) > 0 && p.Get(es[j].animal) > 0;
    }
    if exists a, b :: a != b && p.Get(a) > 0 && p.Get(b) > 0 {
      var a, b :| a != b && p.Get(a) > 0 && p.Get(b) > 0;
      RankInjective(a, b);
      EntryAt(p, a);
      EntryAt(p, b);
      if Rank(a) < Rank(b) {
        NonZeroTwoFrom(es, Rank(a), Rank(b));
      } else {
        NonZeroTwoFrom(es, Rank(b), Rank(a));
      }
    }
  }

  /** The entry of animal `a` sits at position `Rank(a)`. */
  lemma EntryAt(percentages: Tally, a: Animal)
    ensures Rank(a) < 4 && Entries(percentages)[Rank(a)] == Entry(a, percentages.Get(a))
  {
  }

  /** The filter keeps the display order. */
  lemma {:induction false} NonZeroInDisplayOrder(es: seq<Entry>)
    requires InDisplayOrder(es)
    ensures InDisplayOrder(NonZero(es))
    decreases |es|
  {
    if es != [] {
      var tail := es[1..];
      DisplayOrderTail(es);
      NonZeroInDisplayOrder(tail);
      var kept := NonZero(tail);
      if es[0].value > 0 {
        var r := [es[0]] + kept;
        forall i, j | 0 <= i < j < |r| ensures ShownBefore(r[i], r[j]) {
          if i == 0 {
            assert r[j] == kept[j - 1] && r[j] in tail;
            var k :| 0 <= k < |tail| && tail[k] == r[j];
            assert tail[k] == es[k + 1];
          } else {
            assert r[i] == kept[i - 1] && r[j] == kept[j - 1];
          }
        }
      }
    }
  }

  /** The entries the clause lists, `.filter(...).slice(1)`: exactly the
      positive entries of the animals other than the primary one, in display
      order, and some exactly when the clause is shown. */
  function SecondaryAnimals(percentages: Tally): (listed: seq<Entry>)
    ensures forall e :: e in listed <==>
              e in Entries(percentages) && e.value > 0 && e.animal != PrimaryAnimal(percentages).animal
    ensures InDisplayOrder(listed) && Descending(listed)
    ensures listed != [] <==> ShowsTraitsClause(percentages)
  {
    SecondaryFacts(percentages);
    var positive := NonZero(SortedAnimals(percentages));
    if positive == [] then [] else positive[1..]
  }

  /** The positive sorted entries after the first are the positive entries
      of every animal but the primary one. */
  lemma SecondaryFacts(percentages: Tally)
    ensures var positive := NonZero(SortedAnimals(percentages));
            var rest := if positive == [] then [] else positive[1..];
            (forall e :: e in rest <==>
               e in Entries(percentages) && e.value > 0 && e.animal != PrimaryAnimal(percentages).animal) &&
            InDisplayOrder(rest) && Descending(rest) &&
            (|positive| > 1 <==> rest != [])
  {
    SecondaryMembers(percentages);
    SecondaryOrder(percentages);
  }

  /** Which entries follow the first positive one. */
  lemma SecondaryMembers(percentages: Tally)
    ensures var positive := NonZero(SortedAnimals(percentages));
            var rest := if positive == [] then [] else positive[1..];
            forall e :: e in rest <==>
              e in Entries(percentages) && e.value > 0 && e.animal != PrimaryAnimal(percentages).animal
  {
    var s := SortedAnimals(percentages);
    SortedMembers(Entries(percentages));
    forall i, j | 0 <= i < j < |s| ensures s[i].animal != s[j].animal {
      SortedAnimalsDistinct(percentages, i, j);
    }
    AfterFirstPositive(s);
  }

  /** In a descending sequence of distinct animals, the positive entries after
      the first positive one are the positive entries of the other animals. */
  lemma AfterFirstPositive(s: seq<Entry>)
    requires s != [] && Descending(s)
    requires forall i, j :: 0 <= i < j < |s| ==> s[i].animal != s[j].animal
    ensures var positive := NonZero(s);
            var rest := if positive == [] then [] else positive[1..];
            forall e :: e in rest <==> e in s && e.value > 0 && e.animal != s[0].animal
  {
    if NonZero(s) != [] {
      FirstPositiveIsFirst(s);
      assert NonZero(s)[1..] == NonZero(s[1..]);
      LaterEntries(s);
    }
  }

  /** The entries after the first of distinct animals are those of the other
      animals. */
  lemma LaterEntries(s: seq<Entry>)
    requires s != []
    requires forall i, j :: 0 <= i < j < |s| ==> s[i].animal != s[j].animal
    ensures forall e :: e in s[1..] <==> e in s && e.animal != s[0].animal
  {
    forall e | e in s[1..] ensures e.animal != s[0].animal {
      var m :| 0 <= m < |s[1..]| && s[1..][m] == e;
      assert s[m + 1] == e;
    }
    forall e | e in s && e.animal != s[0].animal ensures e in s[1..] {
      var m :| 0 <= m < |s| && s[m] == e;
      assert m > 0 && s[1..][m - 1] == e;
    }
  }

  /** The entries after the first positive one keep the display order. */
  lemma SecondaryOrder(percentages: Tally)
    ensures var positive := NonZero(SortedAnimals(percentages));
            var rest := if positive == [] then [] else positive[1..];
            InDisplayOrder(rest) && Descending(rest)
  {
    var positive := NonZero(SortedAnimals(percentages));
    SortedInDisplayOrder(percentages);
    NonZeroInDisplayOrder(SortedAnimals(percentages));
    if positive != [] {
      DisplayOrderTail(positive);
    }
  }

  /** In a descending sequence with a positive entry, the first positive entry
      is the first entry. */
  lemma FirstPositiveIsFirst(s: seq<Entry>)
    requires Descending(s) && NonZero(s) != []
    ensures s != [] && s[0].value > 0
  {
    NonZeroOne(s);
    var k :| 0 <= k < |s| && s[k].value > 0;
    assert s[0].value >= s[k].value;
  }

  /** The text after item `index` of `count` listed items: `' and '` before
      the last one, `', '` before the others, nothing after the last. */
  function Separator(index: nat, count: nat): (sep: string)
    ensures sep == [] <==> index + 1 >= count
    ensures sep == " and " <==> index + 2 == count
    ensures sep == ", " <==> index + 2 < count
  {
    if index + 1 < count then (if index + 2 == count then " and " else ", ") else ""
  }

  /** The listed items, each followed by its separator, as the `map` renders
      them in a row. */
  function Listing(labels: seq<string>): (text: string)
    ensures labels != [] ==> labels[0] <= text
    ensures |labels| == 1 ==> text == labels[0]
    decreases |labels|
  {
    if labels == [] then [] else labels[0] + Separator(0, |labels|) + Listing(labels[1..])
  }

  /** The separators read as an English list: "A", "A and B", "A, B and C". */
  lemma {:induction false} ListingReadsAsList(labels: seq<string>)
    ensures |labels| == 0 ==> Listing(labels) == []
    ensures |labels| == 1 ==> Listing(labels) == labels[0]
    ensures |labels| >= 2 ==>
              Listing(labels) == Join(labels[..|labels| - 1], ", ") + " and " + labels[|labels| - 1]
    decreases |labels|
  {
    var n := |labels|;
    if n == 1 {
      assert Listing(labels[1..]) == [];
    } else if n == 2 {
      assert labels[1..][1..] == [];
      assert Listing(labels[1..]) == labels[1];
      assert labels[..1] == [labels[0]];
    } else if n > 2 {
      var tail := labels[1..];
      ListingReadsAsList(tail);
      assert tail[..|tail| - 1] == labels[..n - 1][1..];
      assert tail[|tail| - 1] == labels[n - 1];
      assert Join(labels[..n - 1], ", ") == labels[0] + ", " + Join(tail[..|tail| - 1], ", ");
    }
  }

  /** `{percentage}` as the page shows it: decimal digits. */
  function Decimal(n: nat): (digits: string)
    ensures digits != []
    decreases n
  {
    var d := ['0', '1', '2', '3', '4', '5', '6', '7', '8', '9'][n % 10];
    if n < 10 then [d] else Decimal(n / 10) + [d]
  }

  /** An item of the clause, `Owl (30%)`. */
  function Label(e: Entry): string {
    ArchetypeOf(e.animal).name + " (" + Decimal(e.value) + "%)"
  }

  function Labels(es: seq<Entry>): (labels: seq<string>)
    ensures |labels| == |es|
  {
    seq(|es|, k requires 0 <= k < |es| => Label(es[k]))
  }

  /** Every label occurs in the listing. */
  lemma {:induction false} ListingContains(labels: seq<string>, k: nat)
    requires k < |labels|
    ensures Contains(Listing(labels), labels[k])
    decreases |labels|
  {
    if k == 0 {
      ContainsPrefix(Listing(labels), labels[0]);
    } else {
      var tail := labels[1..];
      ListingContains(tail, k - 1);
      assert tail[k - 1] == labels[k];
      ContainsInSuffix(labels[0] + Separator(0, |labels|), Listing(tail), labels[k]);
    }
  }

  /** How the summary paragraph begins. */
  const SummaryOpening := "You are primarily "

  /** The words before the clause: the opening, then the primary animal's
      percentage and name. */
  function SummaryHead(percentages: Tally): (head: string)
    ensures SummaryOpening <= head
    ensures var primary := PrimaryAnimal(percentages);
            head == SummaryOpening + Decimal(primary.value) + "% " + ArchetypeOf(primary.animal).name
  {
    var primary := PrimaryAnimal(percentages);
    var rest := Decimal(primary.value) + "% " + ArchetypeOf(primary.animal).name;
    PrefixOfJoined(SummaryOpening, rest);
    SummaryOpening + rest
  }

  /** The words that introduce the listed animals. */
  const ClauseOpening := " with traits from "

  /** The text of the summary paragraph. It names the primary animal and its
      percentage; the clause follows only when it is shown. */
  function Summary(percentages: Tally): (text: string)
    ensures SummaryHead(percentages) <= text
    ensures !ShowsTraitsClause(percentages) ==> text == SummaryHead(percentages)
    ensures ShowsTraitsClause(percentages) ==> SummaryHead(percentages) + ClauseOpening <= text
  {
    var head := SummaryHead(percentages);
    if ShowsTraitsClause(percentages) then
      var listing := Listing(Labels(SecondaryAnimals(percentages)));
      PrefixOfJoined(head, ClauseOpening + listing);
      PrefixOfNested(head, ClauseOpening, listing);
      head + (ClauseOpening + listing)
    else
      head
  }

  /** Every animal the clause lists appears in the summary with its
      percentage. */
  lemma SummaryNamesSecondary(percentages: Tally, e: Entry)
    requires e in SecondaryAnimals(percentages)
    ensures Contains(Summary(percentages), Label(e))
  {
    var listed := SecondaryAnimals(percentages);
    var k :| 0 <= k < |listed| && listed[k] == e;
    var labels := Labels(listed);
    assert labels[k] == Label(e);
    ListingContains(labels, k);
    ContainsInSuffix(ClauseOpening, Listing(labels), Label(e));
    ContainsInSuffix(SummaryHead(percentages), ClauseOpening + Listing(labels), Label(e));
  }

  /** The full sentence for the record 35/35/15/15: the dove is primary, and
      the other three follow in display order. */
  lemma MixedSummary()
    ensures Summary(Tally(35, 35, 15, 15)) ==
            SummaryOpening + "35% Dove" + ClauseOpening + "Owl (35%), Peacock (15%) and Shark (15%)"
  {
    var t := Tally(35, 35, 15, 15);
    MixedClause();
    MixedLabels();
    MixedHead();
    MixedListing();
    SummaryOf(t, SummaryOpening + "35% Dove", "Owl (35%), Peacock (15%) and Shark (15%)");
    PrefixOfNested(SummaryOpening + "35% Dove", ClauseOpening, "Owl (35%), Peacock (15%) and Shark (15%)");
  }

  /** The summary assembled from its head and its listing when the clause
      is shown. */
  lemma SummaryOf(percentages: Tally, head: string, listing: string)
    requires ShowsTraitsClause(percentages) && SummaryHead(percentages) == head
    requires Listing(Labels(SecondaryAnimals(percentages))) == listing
    ensures Summary(percentages) == head + (ClauseOpening + listing)
  {
  }

  /** The words before the clause for 35/35/15/15. */
  lemma MixedHead()
    ensures SummaryHead(Tally(35, 35, 15, 15)) == SummaryOpening + "35% Dove"
  {
    MixedClause();
    MixedHeadText();
  }

  /** The head's words once the primary entry is known. */
  lemma MixedHeadText()
    ensures SummaryOpening + Decimal(35) + "% " + ArchetypeOf(Dove).name == SummaryOpening + "35% Dove"
  {
    MixedDecimals();
    assert ArchetypeOf(Dove).name == "Dove";
  }

  /** The two percentages of the example, written out. */
  lemma MixedDecimals()
    ensures Decimal(35) == "35" && Decimal(15) == "15"
  {
    assert Decimal(3) == "3" && Decimal(1) == "1";
  }

  /** The three labels read as a list. */
  lemma MixedListing()
    ensures Listing(["Owl (35%)", "Peacock (15%)", "Shark (15%)"]) == "Owl (35%), Peacock (15%) and Shark (15%)"
  {
    ListingOfThree("Owl (35%)", "Peacock (15%)", "Shark (15%)");
  }

  /** Three labels: commas between the first two, `and` before the last. */
  lemma ListingOfThree(a: string, b: string, c: string)
    ensures Listing([a, b, c]) == a + ", " + b + " and " + c
  {
    var labels := [a, b, c];
    assert labels[1..] == [b, c] && labels[1..][1..] == [c] && labels[1..][1..][1..] == [];
  }

  /** The sorted entries of 35/35/15/15 keep the key order, so the clause
      lists the owl, the peacock and the shark. */
  lemma MixedClause()
    ensures var t := Tally(35, 35, 15, 15);
            PrimaryAnimal(t) == Entry(Dove, 35) && ShowsTraitsClause(t) &&
            SecondaryAnimals(t) == [Entry(Owl, 35), Entry(Peacock, 15), Entry(Shark, 15)]
  {
    var t := Tally(35, 35, 15, 15);
    MixedSorted();
    var es := [Entry(Dove, 35), Entry(Owl, 35), Entry(Peacock, 15), Entry(Shark, 15)];
    assert es[1..] == [Entry(Owl, 35), Entry(Peacock, 15), Entry(Shark, 15)];
    assert NonZero(es) == es;
  }

  /** Sorting 35/35/15/15 moves nothing: the ties stay in key order. */
  lemma MixedSorted()
    ensures SortedAnimals(Tally(35, 35, 15, 15)) ==
            [Entry(Dove, 35), Entry(Owl, 35), Entry(Peacock, 15), Entry(Shark, 15)]
  {
    var es := Entries(Tally(35, 35, 15, 15));
    assert es == [Entry(Dove, 35), Entry(Owl, 35), Entry(Peacock, 15), Entry(Shark, 15)];
    SortKeepsDescending(es);
  }

  /** The labels of the three listed entries. */
  lemma MixedLabels()
    ensures Labels([Entry(Owl, 35), Entry(Peacock, 15), Entry(Shark, 15)]) ==
            ["Owl (35%)", "Peacock (15%)", "Shark (15%)"]
  {
    MixedDecimals();
    var labels := Labels([Entry(Owl, 35), Entry(Peacock, 15), Entry(Shark, 15)]);
    assert labels[0] == "Owl (35%)";
    assert labels[1] == "Peacock (15%)";
    assert labels[2] == "Shark (15%)";
  }

  /** A unanimous record names its animal alone, without a clause; the other
      three get the minimum bar. */
  lemma UnanimousBreakdown(a: Animal)
    ensures PrimaryAnimal(NoScores.Add(a, 100)).animal == a
    ensures !ShowsTraitsClause(NoScores.Add(a, 100))
  {
    var p := NoScores.Add(a, 100);
    assert p.Get(a) == 100;
    assert forall x :: x != a ==> p.Get(x) == 0;
    TraitsClauseIff(p);
    var primary := PrimaryAnimal(p);
    assert primary.value == p.Get(primary.animal) >= 100;
  }

  // ---------------------------------------------------------------------------
  // The cohort line
  // ---------------------------------------------------------------------------

  /** An element of `cohortData.distributions`. */
  datatype Distribution = Distribution(animal: string, count: nat, percentage: nat)

  /** `distributions.find(d => d.animal === primaryAnimal[0])?.count || 1`: the
      count of the first distribution of the primary animal, or 1 when there is
      none or its count is 0 (a falsy value). */
  function CohortCount(distributions: seq<Distribution>, primary: Animal): (count: nat)
    ensures count >= 1
    ensures (forall d :: d in distributions ==> d.animal != Id(primary)) ==> count == 1
    ensures forall k :: (0 <= k < |distributions| && distributions[k].animal == Id(primary) &&
                         forall j :: 0 <= j < k ==> distributions[j].animal != Id(primary)) ==>
              count == (if distributions[k].count == 0 then 1 else distributions[k].count)
    decreases |distributions|
  {
    if distributions == [] then 1
    else if distributions[0].animal == Id(primary) then
      (if distributions[0].count == 0 then 1 else distributions[0].count)
    else
      var count := CohortCount(distributions[1..], primary);
      assert forall k :: 1 <= k < |distributions| ==> distributions[1..][k - 1] == distributions[k];
      count
  }
}
