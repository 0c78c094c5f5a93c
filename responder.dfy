/**
 * The keyword responder of the "start a business" chat: the bot's reply to a
 * message is chosen by the first rule, in a fixed order, one of whose keywords
 * occurs in the lower-cased message; a fallback reply answers everything else.
 */
module Responder {
  import opened Wrappers
  import opened Text

  /**
   * The bot's replies. The reply texts are kept opaque; a reply is named by
   * the rule that gives it, the fallback or the greeting.
   */
  datatype Reply = Greeting | FashionIdeas | BeautyIdeas | SnackIdeas | CraftIdeas | ExploreFurther

  /** The suggestion chips under a reply, in display order. */
  function Suggestions(r: Reply): seq<string> {
    match r
    case Greeting =>
      ["Fashion & Clothing", "Beauty & Skincare", "Homemade Snacks", "Handmade Crafts", "Digital Services"]
    case FashionIdeas =>
      ["Sustainable Cotton", "Indo-Western Fusion", "Handwoven Accessories", "Tell me more about regional styles"]
    case BeautyIdeas =>
      ["Ayurvedic Skincare", "Organic Cosmetics", "Herbal Hair Care", "DIY Beauty Kits"]
    case SnackIdeas =>
      ["Healthy Nuts & Seeds", "Traditional Sweets", "Regional Namkeens", "Natural Drinks"]
    case CraftIdeas =>
      ["Decorative Items", "Personalized Gifts", "Handmade Toys", "Traditional Pottery"]
    case ExploreFurther =>
      ["I love making things by hand", "I'm good with technology", "I enjoy helping people", "I want something eco-friendly"]
  }

  /** The keywords of the rule giving reply `r`; the greeting and the fallback have none. */
  function Keywords(r: Reply): seq<string> {
    match r
    case FashionIdeas => ["fashion", "clothing"]
    case BeautyIdeas => ["beauty", "skincare"]
    case SnackIdeas => ["snack", "food"]
    case CraftIdeas => ["craft", "handmade"]
    case _ => []
  }

  /** The rule table, in the order the rules are tried; each rule is named by its reply. */
  const Rules: seq<Reply> := [FashionIdeas, BeautyIdeas, SnackIdeas, CraftIdeas]

  /** Some keyword of `keywords` occurs in `text`. */
  function AnyKeyword(text: string, keywords: seq<string>): (b: bool)
    ensures b <==> exists i :: 0 <= i < |keywords| && Contains(text, keywords[i])
  {
    if keywords == [] then false
    else Contains(text, keywords[0]) || AnyKeyword(text, keywords[1..])
  }

  /** A rule fires when one of its keywords occurs in the lower-cased message. */
  predicate Fires(rule: Reply, text: string) {
    AnyKeyword(text, Keywords(rule))
  }

  /** The index of the first rule of `rules` that fires on `text`, if any. */
  function FirstMatch(rules: seq<Reply>, text: string): (r: Option<nat>)
    ensures r.Some? ==> r.value < |rules| && Fires(rules[r.value], text)
    ensures r.Some? ==> forall j :: 0 <= j < r.value ==> !Fires(rules[j], text)
    ensures r.None? <==> forall j :: 0 <= j < |rules| ==> !Fires(rules[j], text)
  {
    if rules == [] then None
    else if Fires(rules[0], text) then Some(0)
    else match FirstMatch(rules[1..], text)
      case None => None
      case Some(i) => Some(i + 1)
  }

  /** The reply the bot gives to `message`. */
  function Respond(message: string): Reply {
    match FirstMatch(Rules, Lower(message))
    case Some(i) => Rules[i]
    case None => ExploreFurther
  }

  /** The fallback answers exactly the messages on which no rule fires. */
  lemma FallbackIffNoRule(message: string)
    ensures Respond(message) == ExploreFurther <==> forall j :: 0 <= j < |Rules| ==> !Fires(Rules[j], Lower(message))
  {
  }

  /** The reply chain as the chat page spells it out, as a chain of conditionals on the lower-cased message. */
  function ChainedReply(lower: string): Reply {
    if Contains(lower, "fashion") || Contains(lower, "clothing") then FashionIdeas
    else if Contains(lower, "beauty") || Contains(lower, "skincare") then BeautyIdeas
    else if Contains(lower, "snack") || Contains(lower, "food") then SnackIdeas
    else if Contains(lower, "craft") || Contains(lower, "handmade") then CraftIdeas
    else ExploreFurther
  }

  /** The rule table with first-match-wins selects exactly the reply of the page's conditional chain. */
  lemma RespondIsChainedReply(message: string)
    ensures Respond(message) == ChainedReply(Lower(message))
  {
    var t := Lower(message);
    assert Keywords(Rules[0]) == ["fashion", "clothing"];
    assert Keywords(Rules[1]) == ["beauty", "skincare"];
    assert Keywords(Rules[2]) == ["snack", "food"];
    assert Keywords(Rules[3]) == ["craft", "handmade"];
    forall j | 0 <= j < |Rules| ensures Fires(Rules[j], t) <==> Contains(t, Keywords(Rules[j])[0]) || Contains(t, Keywords(Rules[j])[1]) {
      assert AnyKeyword(t, Keywords(Rules[j])[2..]) == false;
    }
  }

  /** A rule whose keyword occurs wins over every later rule, provided no earlier rule fires. */
  lemma FirstMatchWins(message: string, i: nat, k: nat)
    requires i < |Rules| && k < |Keywords(Rules[i])|
    requires Contains(Lower(message), Keywords(Rules[i])[k])
    requires forall j :: 0 <= j < i ==> !Fires(Rules[j], Lower(message))
    ensures Respond(message) == Rules[i]
  {
    assert Fires(Rules[i], Lower(message));
  }

  /** A message containing none of the eight keywords gets the fallback reply and its four chips. */
  lemma NoKeywordFallback(message: string)
    requires forall j, k :: 0 <= j < |Rules| && 0 <= k < |Keywords(Rules[j])| ==> !Contains(Lower(message), Keywords(Rules[j])[k])
    ensures Respond(message) == ExploreFurther
    ensures Suggestions(Respond(message)) ==
      ["I love making things by hand", "I'm good with technology", "I enjoy helping people", "I want something eco-friendly"]
  {
  }

  /** Selection ignores the case of ASCII letters: case variants get the same reply. */
  lemma CaseInsensitive(s: string, t: string)
    requires |s| == |t|
    requires forall i :: 0 <= i < |s| ==> LowerChar(s[i]) == LowerChar(t[i])
    ensures Respond(s) == Respond(t)
  {
    LowerCaseVariants(s, t);
  }

  /** The keywords are written in lower case, so they can occur in a lower-cased message. */
  lemma KeywordsAreLowerCase()
    ensures forall j, k :: 0 <= j < |Rules| && 0 <= k < |Keywords(Rules[j])| ==>
      Lower(Keywords(Rules[j])[k]) == Keywords(Rules[j])[k]
  {
    forall j, k | 0 <= j < |Rules| && 0 <= k < |Keywords(Rules[j])|
      ensures Lower(Keywords(Rules[j])[k]) == Keywords(Rules[j])[k]
    {
      assert NoUpperCase(Keywords(Rules[j])[k]);
      LowerOfNoUpperCase(Keywords(Rules[j])[k]);
    }
  }

  /** A keyword anywhere inside a longer word still fires its rule. */
  lemma KeywordInsideWord(before: string, i: nat, k: nat, after: string)
    requires i < |Rules| && k < |Keywords(Rules[i])|
    requires forall j :: 0 <= j < i ==> !Fires(Rules[j], Lower(before + Keywords(Rules[i])[k] + after))
    ensures Respond(before + Keywords(Rules[i])[k] + after) == Rules[i]
  {
    var kw := Keywords(Rules[i])[k];
    var m := before + kw + after;
    KeywordsAreLowerCase();
    LowerConcat(before, kw);
    LowerConcat(before + kw, after);
    ContainsInfix(Lower(before), kw, Lower(after));
    FirstMatchWins(m, i, k);
  }

  /** The reply to a message whose lower-cased form is known. */
  lemma RespondVia(message: string, lower: string)
    ensures Lower(message) == lower ==> Respond(message) == ChainedReply(lower)
  {
    RespondIsChainedReply(message);
  }

  /** "clothing and food": two rules apply and the earlier one, fashion, wins, whatever the order in the text. */
  lemma ExampleClothingAndFood()
    ensures Respond("clothing and food") == FashionIdeas
  {
    LowerClothingAndFood();
    RespondVia("clothing and food", "clothing and food");
    ChainClothingAndFood();
  }

  lemma LowerClothingAndFood()
    ensures Lower("clothing and food") == "clothing and food"
  {
    LowerOfNoUpperCase("clothing and food");
  }

  lemma ChainClothingAndFood()
    ensures ChainedReply("clothing and food") == FashionIdeas
  {
    assert OccursAt("clothing and food", "clothing", 0);
  }

  /** "snacks" fires the food rule: the keyword "snack" is a prefix of the word. */
  lemma ExampleSnacks()
    ensures Respond("snacks") == SnackIdeas
  {
    LowerSnacks();
    RespondVia("snacks", "snacks");
    ChainSnacks();
  }

  lemma LowerSnacks()
    ensures Lower("snacks") == "snacks"
  {
    LowerOfNoUpperCase("snacks");
  }

  lemma ChainSnacks()
    ensures ChainedReply("snacks") == SnackIdeas
  {
    AbsentCharNotContained("snacks", "fashion", 0);
    AbsentCharNotContained("snacks", "clothing", 1);
    AbsentCharNotContained("snacks", "beauty", 0);
    AbsentCharNotContained("snacks", "skincare", 2);
    assert OccursAt("snacks", "snack", 0);
  }

  /** "craftsman" fires the craft rule: matching is by substring, not by word. */
  lemma ExampleCraftsman()
    ensures Respond("craftsman") == CraftIdeas
  {
    LowerCraftsman();
    RespondVia("craftsman", "craftsman");
    ChainCraftsman();
  }

  lemma LowerCraftsman()
    ensures Lower("craftsman") == "craftsman"
  {
    LowerOfNoUpperCase("craftsman");
  }

  lemma ChainCraftsman()
    ensures ChainedReply("craftsman") == CraftIdeas
  {
    AbsentCharNotContained("craftsman", "fashion", 3);
    AbsentCharNotContained("craftsman", "clothing", 1);
    AbsentCharNotContained("craftsman", "beauty", 0);
    AbsentCharNotContained("craftsman", "skincare", 1);
    AbsentCharNotContained("craftsman", "snack", 4);
    AbsentCharNotContained("craftsman", "food", 1);
    assert OccursAt("craftsman", "craft", 0);
  }

  /** "quantum computing widgets" contains no keyword and gets the fallback reply. */
  lemma ExampleNoKeyword()
    ensures Respond("quantum computing widgets") == ExploreFurther
  {
    LowerNoKeyword();
    RespondVia("quantum computing widgets", "quantum computing widgets");
    ChainNoKeyword();
  }

  lemma LowerNoKeyword()
    ensures Lower("quantum computing widgets") == "quantum computing widgets"
  {
    LowerOfNoUpperCase("quantum computing widgets");
  }

  lemma ChainNoKeyword()
    ensures ChainedReply("quantum computing widgets") == ExploreFurther
  {
    AbsentCharNotContained("quantum computing widgets", "fashion", 0);
    AbsentCharNotContained("quantum computing widgets", "clothing", 1);
    AbsentCharNotContained("quantum computing widgets", "beauty", 0);
    AbsentCharNotContained("quantum computing widgets", "skincare", 1);
    AbsentCharNotContained("quantum computing widgets", "snack", 4);
    AbsentCharNotContained("quantum computing widgets", "food", 0);
    AbsentCharNotContained("quantum computing widgets", "craft", 1);
    AbsentCharNotContained("quantum computing widgets", "handmade", 0);
  }

  /** The greeting chip "Homemade Snacks" gets the food reply. */
  lemma ExampleHomemadeSnacks()
    ensures Respond("Homemade Snacks") == SnackIdeas
  {
    CaseOfHomemadeSnacks();
    LowerCaseHomemadeSnacks();
    RespondVia("Homemade Snacks", "homemade snacks");
    ChainHomemadeSnacks();
  }

  lemma CaseOfHomemadeSnacks()
    ensures Lower("Homemade Snacks") == Lower("homemade snacks")
  {
    LowerCaseVariants("Homemade Snacks", "homemade snacks");
  }

  lemma LowerCaseHomemadeSnacks()
    ensures Lower("homemade snacks") == "homemade snacks"
  {
    LowerOfNoUpperCase("homemade snacks");
  }

  lemma ChainHomemadeSnacks()
    ensures ChainedReply("homemade snacks") == SnackIdeas
  {
    AbsentCharNotContained("homemade snacks", "fashion", 0);
    AbsentCharNotContained("homemade snacks", "clothing", 1);
    AbsentCharNotContained("homemade snacks", "beauty", 0);
    AbsentCharNotContained("homemade snacks", "skincare", 2);
    assert OccursAt("homemade snacks", "snack", 9);
  }

  /** The greeting chip "Handmade Crafts" gets the craft reply. */
  lemma ExampleHandmadeCrafts()
    ensures Respond("Handmade Crafts") == CraftIdeas
  {
    CaseOfHandmadeCrafts();
    LowerCaseHandmadeCrafts();
    RespondVia("Handmade Crafts", "handmade crafts");
    ChainHandmadeCrafts();
  }

  lemma CaseOfHandmadeCrafts()
    ensures Lower("Handmade Crafts") == Lower("handmade crafts")
  {
    LowerCaseVariants("Handmade Crafts", "handmade crafts");
  }

  lemma LowerCaseHandmadeCrafts()
    ensures Lower("handmade crafts") == "handmade crafts"
  {
    LowerOfNoUpperCase("handmade crafts");
  }

  lemma ChainHandmadeCrafts()
    ensures ChainedReply("handmade crafts") == CraftIdeas
  {
    AbsentCharNotContained("handmade crafts", "fashion", 4);
    AbsentCharNotContained("handmade crafts", "clothing", 1);
    AbsentCharNotContained("handmade crafts", "beauty", 0);
    AbsentCharNotContained("handmade crafts", "skincare", 1);
    AbsentCharNotContained("handmade crafts", "snack", 4);
    AbsentCharNotContained("handmade crafts", "food", 1);
    assert OccursAt("handmade crafts", "craft", 9);
  }

  /** The greeting chip "Digital Services" matches no rule and gets the fallback reply. */
  lemma ExampleDigitalServices()
    ensures Respond("Digital Services") == ExploreFurther
  {
    CaseOfDigitalServices();
    LowerCaseDigitalServices();
    RespondVia("Digital Services", "digital services");
    ChainDigitalServices();
  }

  lemma CaseOfDigitalServices()
    ensures Lower("Digital Services") == Lower("digital services")
  {
    LowerCaseVariants("Digital Services", "digital services");
  }

  lemma LowerCaseDigitalServices()
    ensures Lower("digital services") == "digital services"
  {
    LowerOfNoUpperCase("digital services");
  }

  lemma ChainDigitalServices()
    ensures ChainedReply("digital services") == ExploreFurther
  {
    AbsentCharNotContained("digital services", "fashion", 0);
    AbsentCharNotContained("digital services", "clothing", 2);
    AbsentCharNotContained("digital services", "beauty", 0);
    AbsentCharNotContained("digital services", "skincare", 1);
    AbsentCharNotContained("digital services", "snack", 1);
    AbsentCharNotContained("digital services", "food", 0);
    AbsentCharNotContained("digital services", "craft", 3);
    AbsentCharNotContained("digital services", "handmade", 0);
  }

  /** "I want to sell Fashion items" gets the fashion reply. */
  lemma ExampleSellFashion()
    ensures Respond("I want to sell Fashion items") == FashionIdeas
  {
    CaseOfSellFashion();
    LowerCaseSellFashion();
    RespondVia("I want to sell Fashion items", "i want to sell fashion items");
    ChainSellFashion();
  }

  lemma CaseOfSellFashion()
    ensures Lower("I want to sell Fashion items") == Lower("i want to sell fashion items")
  {
    LowerCaseVariants("I want to sell Fashion items", "i want to sell fashion items");
  }

  lemma LowerCaseSellFashion()
    ensures Lower("i want to sell fashion items") == "i want to sell fashion items"
  {
    LowerOfNoUpperCase("i want to sell fashion items");
  }

  lemma ChainSellFashion()
    ensures ChainedReply("i want to sell fashion items") == FashionIdeas
  {
    assert OccursAt("i want to sell fashion items", "fashion", 15);
  }
}
