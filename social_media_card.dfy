/** The text side of `lib/social-media-card.ts`: the card sizes, the quotes and
    their selection, the greedy word wrap used to lay text out on the card, and
    the share caption for each platform. Canvas drawing is not modelled; the
    width of a piece of text, which the canvas measures, is a parameter. */
module SocialMediaCard {
  import opened Wrappers
  import opened Text
  import opened QuizData

  // ---------------------------------------------------------------------------
  // Card sizes and quotes
  // ---------------------------------------------------------------------------

  /** `SocialCardFormat`. */
  datatype CardFormat = Facebook | Instagram | Twitter

  datatype Dimensions = Dimensions(width: nat, height: nat)

  /** `SOCIAL_CARD_DIMENSIONS[format]`: Instagram cards are square, the two
      others are 1200 pixels wide and wider than tall. */
  function CardDimensions(format: CardFormat): (d: Dimensions)
    ensures d.width > 0 && d.height > 0
    ensures format == Instagram <==> d.width == d.height
    ensures format != Instagram ==> d.width == 1200 && d.height < d.width
  {
    match format
    case Facebook => Dimensions(1200, 630)
    case Instagram => Dimensions(1080, 1080)
    case Twitter => Dimensions(1200, 675)
  }

  const DoveQuote1 := "Your compassion creates connections that change the world."
  const DoveQuote2 := "In a world of noise, your harmony brings peace."
  const DoveQuote3 := "Your gentle strength moves mountains with kindness."
  const OwlQuote1 := "Your wisdom illuminates the path for others to follow."
  const OwlQuote2 := "In complexity, you find clarity. In chaos, you create order."
  const OwlQuote3 := "Your analytical mind solves what others can't even see."
  const PeacockQuote1 := "Your enthusiasm ignites inspiration in everyone around you."
  const PeacockQuote2 := "You turn ordinary moments into extraordinary experiences."
  const PeacockQuote3 := "Your creativity paints the world in brilliant colors."
  const SharkQuote1 := "Your determination turns obstacles into stepping stones."
  const SharkQuote2 := "You don't just chase success\U{2014}you create it."
  const SharkQuote3 := "Your leadership drives results that others only dream of."

  /** `MOTIVATIONAL_QUOTES[animalType]`: three quotes per animal. */
  function MotivationalQuotes(animalType: Animal): (quotes: seq<string>)
    ensures |quotes| == 3
  {
    match animalType
    case Dove => [DoveQuote1, DoveQuote2, DoveQuote3]
    case Owl => [OwlQuote1, OwlQuote2, OwlQuote3]
    case Peacock => [PeacockQuote1, PeacockQuote2, PeacockQuote3]
    case Shark => [SharkQuote1, SharkQuote2, SharkQuote3]
  }

  /** `getRandomMotivationalQuote(animalType)`, with the value of `Math.random()`
      as the parameter `random` (in [0, 1)): the quote at position
      `floor(random * quotes.length)`, always one of the animal's quotes. */
  function GetRandomMotivationalQuote(animalType: Animal, random: real): (quote: string)
    requires 0.0 <= random < 1.0
    ensures quote in MotivationalQuotes(animalType)
    ensures var k := (random * 3.0).Floor; 0 <= k < 3 && quote == MotivationalQuotes(animalType)[k]
  {
    var quotes := MotivationalQuotes(animalType);
    var k := (random * (|quotes| as real)).Floor;
    quotes[k]
  }

  // ---------------------------------------------------------------------------
  // Word wrap
  // ---------------------------------------------------------------------------

  /** The lines `wrapText` produces once `current` is the line being filled and
      `rest` are the words still to place: a word joins the line when the
      measured width of `line + ' ' + word` is below `maxWidth`, and starts a
      new line otherwise. */
  function WrapFrom(current: string, rest: seq<string>, maxWidth: real, measure: string -> real): (lines: seq<string>)
    ensures 1 <= |lines| <= |rest| + 1
    decreases |rest|
  {
    if rest == [] then [current]
    else if measure(current + " " + rest[0]) < maxWidth then WrapFrom(current + " " + rest[0], rest[1..], maxWidth, measure)
    else [current] + WrapFrom(rest[0], rest[1..], maxWidth, measure)
  }

  /** `wrapText(ctx, text, maxWidth)`, with `ctx.measureText(s).width` as
      `measure(s)`: at least one line, no more lines than words, the lines
      joined by single spaces give back the text, every word joined its line
      only because the line with it measured less than `maxWidth`, and every
      line break was forced by a next word that did not fit. */
  method WrapText(text: string, maxWidth: real, measure: string -> real) returns (lines: seq<string>)
    ensures var words := Split(text, ' '); lines == WrapFrom(words[0], words[1..], maxWidth, measure)
    ensures 1 <= |lines| <= |Split(text, ' ')|
    ensures Join(lines, " ") == text
    ensures forall k :: 0 <= k < |lines| ==> LineFits(lines[k], maxWidth, measure)
    ensures forall k :: 0 <= k < |lines| - 1 ==> BreakForced(lines[k], lines[k + 1], maxWidth, measure)
  {
    var words := Split(text, ' ');
    lines := [];
    var currentLine := words[0];
    for i := 1 to |words|
      invariant lines + WrapFrom(currentLine, words[i..], maxWidth, measure) == WrapFrom(words[0], words[1..], maxWidth, measure)
    {
      var word := words[i];
      var width := measure(currentLine + " " + word);
      assert words[i..][1..] == words[i + 1..];
      if width < maxWidth {
        currentLine := currentLine + " " + word;
      } else {
        lines := lines + [currentLine];
        currentLine := word;
      }
    }
    lines := lines + [currentLine];
    WrapJoin(words[0], words[1..], maxWidth, measure);
    assert [words[0]] + words[1..] == words;
    JoinSplit(text, ' ');
    SplitWhole(words[0], ' ');
    WrapLinesFit(words[0], words[1..], maxWidth, measure);
    WrapBreaksAreForced(words[0], words[1..], maxWidth, measure);
  }

  /** Two pieces joined by the separator, as one piece or as two, join alike. */
  lemma JoinMerge(a: string, b: string, pieces: seq<string>, sep: string)
    ensures Join([a + sep + b] + pieces, sep) == Join([a, b] + pieces, sep)
  {
    if pieces != [] {
      assert ([a + sep + b] + pieces)[1..] == pieces;
      assert ([a, b] + pieces)[1..] == [b] + pieces;
      assert ([b] + pieces)[1..] == pieces;
    }
  }

  /** Wrapping only decides where the spaces between words become line breaks:
      the lines joined by spaces are the words joined by spaces. */
  lemma {:induction false} WrapJoin(current: string, rest: seq<string>, maxWidth: real, measure: string -> real)
    ensures Join(WrapFrom(current, rest, maxWidth, measure), " ") == Join([current] + rest, " ")
    decreases |rest|
  {
    if rest != [] {
      var w, more := rest[0], rest[1..];
      assert [current] + rest == [current, w] + more;
      if measure(current + " " + w) < maxWidth {
        WrapJoin(current + " " + w, more, maxWidth, measure);
        JoinMerge(current, w, more, " ");
      } else {
        var tail := WrapFrom(w, more, maxWidth, measure);
        WrapJoin(w, more, maxWidth, measure);
        assert ([current] + tail)[1..] == tail;
        assert ([current, w] + more)[1..] == [w] + more;
      }
    }
  }

  /** Each word of `line` after the first joined it while fitting: the words
      up to and including it, joined by spaces, measure less than `maxWidth`. */
  predicate LineFits(line: string, maxWidth: real, measure: string -> real) {
    var words := Split(line, ' ');
    forall i :: 2 <= i <= |words| ==> measure(Join(words[..i], " ")) < maxWidth
  }

  /** A word joins a line only when it fits: given words without spaces and a
      line that fits so far, every line produced fits. */
  lemma {:induction false} WrapLinesFit(current: string, rest: seq<string>, maxWidth: real, measure: string -> real)
    requires LineFits(current, maxWidth, measure)
    requires forall w :: w in rest ==> ' ' !in w
    ensures var lines := WrapFrom(current, rest, maxWidth, measure);
            forall k :: 0 <= k < |lines| ==> LineFits(lines[k], maxWidth, measure)
    decreases |rest|
  {
    if rest != [] {
      var w, more := rest[0], rest[1..];
      var lines := WrapFrom(current, rest, maxWidth, measure);
      SplitWhole(w, ' ');
      if measure(current + " " + w) < maxWidth {
        LongerLineFits(current, w, maxWidth, measure);
        WrapLinesFit(current + " " + w, more, maxWidth, measure);
        assert lines == WrapFrom(current + " " + w, more, maxWidth, measure);
      } else {
        WrapLinesFit(w, more, maxWidth, measure);
        assert lines == [current] + WrapFrom(w, more, maxWidth, measure);
      }
    }
  }

  /** A line that fits, extended by a word without spaces that fits beside it,
      still fits. */
  lemma LongerLineFits(line: string, w: string, maxWidth: real, measure: string -> real)
    requires LineFits(line, maxWidth, measure) && ' ' !in w
    requires measure(line + " " + w) < maxWidth
    ensures LineFits(line + " " + w, maxWidth, measure)
  {
    var before := Split(line, ' ');
    SplitAround(line, w, ' ');
    SplitWhole(w, ' ');
    var words := before + [w];
    assert line + " " + w == line + [' '] + w;
    assert Split(line + " " + w, ' ') == words;
    forall i | 2 <= i <= |words| ensures measure(Join(words[..i], " ")) < maxWidth {
      if i <= |before| {
        assert words[..i] == before[..i];
      } else {
        assert words[..i] == words;
        JoinSnoc(before, w, " ");
        JoinSplit(line, ' ');
      }
    }
  }

  /** A break between `line` and `next` is forced when `next` begins with a
      word that did not fit beside `line`. */
  ghost predicate BreakForced(line: string, next: string, maxWidth: real, measure: string -> real) {
    exists w :: ' ' !in w && measure(line + " " + w) >= maxWidth && (next == w || w + " " <= next)
  }

  /** Every line break is forced: the greedy rule tries each word once, so a
      line is never closed while the next word would still fit. */
  lemma {:induction false} WrapBreaksAreForced(current: string, rest: seq<string>, maxWidth: real, measure: string -> real)
    requires forall w :: w in rest ==> ' ' !in w
    ensures var lines := WrapFrom(current, rest, maxWidth, measure);
            forall k :: 0 <= k < |lines| - 1 ==> BreakForced(lines[k], lines[k + 1], maxWidth, measure)
    decreases |rest|
  {
    if rest != [] {
      var w, more := rest[0], rest[1..];
      var lines := WrapFrom(current, rest, maxWidth, measure);
      if measure(current + " " + w) < maxWidth {
        WrapBreaksAreForced(current + " " + w, more, maxWidth, measure);
        assert lines == WrapFrom(current + " " + w, more, maxWidth, measure);
      } else {
        var tail := WrapFrom(w, more, maxWidth, measure);
        WrapBreaksAreForced(w, more, maxWidth, measure);
        WrapStartsWith(w, more, maxWidth, measure);
        assert lines == [current] + tail;
        forall k | 0 <= k < |lines| - 1
          ensures BreakForced(lines[k], lines[k + 1], maxWidth, measure)
        {
          if k == 0 {
            assert lines[1] == tail[0];
            assert measure(lines[0] + " " + w) >= maxWidth;
          } else {
            assert lines[k] == tail[k - 1] && lines[k + 1] == tail[k];
          }
        }
      }
    }
  }

  /** The first line begins with the word it was started with. */
  lemma {:induction false} WrapStartsWith(current: string, rest: seq<string>, maxWidth: real, measure: string -> real)
    ensures var first := WrapFrom(current, rest, maxWidth, measure)[0];
            first == current || current + " " <= first
    decreases |rest|
  {
    if rest != [] && measure(current + " " + rest[0]) < maxWidth {
      WrapStartsWith(current + " " + rest[0], rest[1..], maxWidth, measure);
      var first := WrapFrom(current, rest, maxWidth, measure)[0];
      assert (current + " " + rest[0])[..|current| + 1] == current + " ";
      assert first[..|current| + 1] == (current + " " + rest[0])[..|current| + 1];
    }
  }

  // ---------------------------------------------------------------------------
  // Share caption
  // ---------------------------------------------------------------------------

  /** `animalArticle`. */
  function Article(animalType: Animal): (article: string)
    ensures article == "an" <==> animalType == Owl
    ensures article == "an" || article == "a"
  {
    if animalType == Owl then "an" else "a"
  }

  /** `animalEmoji`: dove, owl and peacock have their own; every other value
      gets the shark's. */
  function Emoji(animalType: Animal): (emoji: string)
    ensures 1 <= |emoji| <= 2 && emoji[0] as int >= 0x1F000
    ensures |emoji| == 2 <==> animalType == Dove
  {
    if animalType == Dove then "\U{1F54A}\U{FE0F}"
    else if animalType == Owl then "\U{1F989}"
    else if animalType == Peacock then "\U{1F99A}"
    else "\U{1F988}"
  }

  /** Each animal has an emoji of its own. */
  lemma EmojiDistinct(a: Animal, b: Animal)
    ensures Emoji(a) == Emoji(b) <==> a == b
  {
  }

  const BaseOpening := "I just discovered I'm "
  const BaseClosing := " on the Animal Personality Quiz!"
  const CallToAction := "Take the quiz to discover your animal personality and ideal career path!"
  const DefaultHost := "ethosaz.com"
  /** The paragraph between the call to action and the url on Facebook and LinkedIn. */
  const FacebookPitch := "\U{1F3AF} Discover your strengths, ideal work environment, and perfect career matches based on your unique personality type."
  /** The paragraph between the call to action and the hashtags on Instagram. */
  const InstagramPitch := "\U{1F3AF} Swipe to see my personality breakdown and career matches!"
  const ParagraphBreak := "\n\n"

  /** `baseText`. */
  function BaseText(animalType: Animal, animalName: string): (text: string)
    ensures BaseOpening <= text
  {
    BaseOpening + Article(animalType) + " " + animalName + " " + Emoji(animalType) + BaseClosing
  }

  /** `url`: the page origin when a browser window exists (`Some(origin)`),
      the fixed host name otherwise. */
  function ShareUrl(windowOrigin: Option<string>): (url: string)
    ensures windowOrigin.Some? ==> url == windowOrigin.value
    ensures windowOrigin.None? ==> url == DefaultHost
  {
    match windowOrigin
    case Some(origin) => origin
    case None => DefaultHost
  }

  /** The three hashtags of the Twitter caption; Instagram adds two more. */
  function Hashtags(animalName: string): string {
    "#PersonalityQuiz #" + animalName + "Personality #CareerGuidance"
  }

  /** `generateShareCaption(animalType, animalName, platform)` for a page whose
      origin is `windowOrigin`. */
  function GenerateShareCaption(animalType: Animal, animalName: string, platform: string, windowOrigin: Option<string>): (caption: string)
    ensures BaseText(animalType, animalName) <= caption
  {
    var baseText := BaseText(animalType, animalName);
    var url := ShareUrl(windowOrigin);
    if platform == "twitter" then baseText + " " + CallToAction + " " + url + " " + Hashtags(animalName)
    else if platform == "facebook" || platform == "linkedin" then
      baseText + ParagraphBreak + CallToAction + ParagraphBreak + FacebookPitch + ParagraphBreak + url
    else if platform == "instagram" then
      baseText + ParagraphBreak + CallToAction + ParagraphBreak + InstagramPitch + ParagraphBreak
      + Hashtags(animalName) + " #PersonalityTest #AnimalPersonality"
    else baseText + " " + CallToAction + " " + url
  }

  /** The article is "an" exactly for the owl. */
  lemma CaptionArticle(animalType: Animal, animalName: string, platform: string, windowOrigin: Option<string>)
    ensures var caption := GenerateShareCaption(animalType, animalName, platform, windowOrigin);
            (animalType == Owl ==> "I just discovered I'm an " <= caption) &&
            (animalType != Owl ==> "I just discovered I'm a " <= caption)
  {
    var caption := GenerateShareCaption(animalType, animalName, platform, windowOrigin);
    var start := BaseOpening + Article(animalType) + " ";
    var named := start + animalName;
    var spaced := named + " ";
    var pictured := spaced + Emoji(animalType);
    PrefixOfJoined(start, animalName);
    PrefixOfJoined(named, " ");
    PrefixOfJoined(spaced, Emoji(animalType));
    PrefixOfJoined(pictured, BaseClosing);
    assert start <= BaseText(animalType, animalName) <= caption;
  }

  /** Facebook and LinkedIn get the same caption. */
  lemma FacebookIsLinkedIn(animalType: Animal, animalName: string, windowOrigin: Option<string>)
    ensures GenerateShareCaption(animalType, animalName, "facebook", windowOrigin)
         == GenerateShareCaption(animalType, animalName, "linkedin", windowOrigin)
  {
  }

  /** The Twitter caption carries the url and ends with the three hashtags. */
  lemma TwitterCaption(animalType: Animal, animalName: string, windowOrigin: Option<string>)
    ensures var caption := GenerateShareCaption(animalType, animalName, "twitter", windowOrigin);
            Contains(caption, ShareUrl(windowOrigin)) &&
            caption[|caption| - |Hashtags(animalName)|..] == Hashtags(animalName)
  {
    var url := ShareUrl(windowOrigin);
    var head := BaseText(animalType, animalName) + " " + CallToAction + " ";
    var caption := GenerateShareCaption(animalType, animalName, "twitter", windowOrigin);
    var tags := Hashtags(animalName);
    assert caption == head + url + (" " + tags);
    ContainsAt(head, url, " " + tags);
    assert caption == (head + url + " ") + tags;
    SuffixAt(head + url + " ", tags);
  }

  /** The last `|suffix|` characters of `prefix + suffix` are `suffix`. */
  lemma SuffixAt(prefix: string, suffix: string)
    ensures (prefix + suffix)[|prefix + suffix| - |suffix|..] == suffix
  {
  }

  /** A text occurs in any text it is a middle piece of. */
  lemma {:induction false} ContainsAt(prefix: string, needle: string, suffix: string)
    ensures Contains(prefix + needle + suffix, needle)
    decreases |prefix|
  {
    if prefix != [] {
      assert (prefix + needle + suffix)[1..] == prefix[1..] + needle + suffix;
      ContainsAt(prefix[1..], needle, suffix);
    }
  }

  /** The Instagram caption does not depend on the page origin: it has no url. */
  lemma InstagramHasNoUrl(animalType: Animal, animalName: string, origin1: Option<string>, origin2: Option<string>)
    ensures GenerateShareCaption(animalType, animalName, "instagram", origin1)
         == GenerateShareCaption(animalType, animalName, "instagram", origin2)
  {
  }

  /** Any other platform name gets the base text, the call to action and the url,
      joined by single spaces. */
  lemma OtherPlatformCaption(animalType: Animal, animalName: string, platform: string, windowOrigin: Option<string>)
    requires platform != "twitter" && platform != "facebook" && platform != "linkedin" && platform != "instagram"
    ensures GenerateShareCaption(animalType, animalName, platform, windowOrigin)
         == Join([BaseText(animalType, animalName), CallToAction, ShareUrl(windowOrigin)], " ")
  {
    var parts := [BaseText(animalType, animalName), CallToAction, ShareUrl(windowOrigin)];
    var base, url := BaseText(animalType, animalName), ShareUrl(windowOrigin);
    assert parts[1..] == [CallToAction, url];
    assert parts[1..][1..] == [url];
    assert Join(parts[1..], " ") == CallToAction + " " + url;
    assert Join(parts, " ") == base + " " + (CallToAction + " " + url);
  }
}
