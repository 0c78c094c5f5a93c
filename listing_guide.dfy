/**
 * The listing guide page: from the stored product record it derives a
 * suggested selling price of two and a half times the cost, the profit
 * that price leaves, a summary card and five step cards; without a stored
 * record it redirects to `/sell-online`.
 */
module ListingGuide {
  import opened Wrappers
  import opened Text
  import opened Numbers

  /** The record the product form stores; every field is text, the cost price included. */
  datatype ProductData = ProductData(
    category: string,
    productName: string,
    costPrice: string,
    description: string,
    platform: string)

  /** A step card: its title, the line under it and its five checklist entries. */
  datatype Step = Step(title: string, description: string, details: seq<string>)

  /** The texts of the summary card, each after its label. */
  datatype Summary = Summary(
    product: string,
    category: string,
    platform: string,
    costPrice: string,
    suggestedPrice: string,
    profit: string)

  datatype Guide = Guide(summary: Summary, steps: seq<Step>)

  /** What the page does: send the visitor elsewhere, show nothing, or show the guide. */
  datatype Page = Redirect(path: string) | Blank | Display(guide: Guide)

  /** The rupee sign the prices are written after. */
  const Rupee: string := "\U{20B9}"

  /** Where the page sends a visitor who has no stored record. */
  const RedirectPath: string := "/sell-online"

  /** The step titles, in display order. */
  const StepTitles: seq<string> := [
    "Take Amazing Photos",
    "Write Compelling Description",
    "Smart Pricing Strategy",
    "Optimize for Search",
    "Launch & Promote"
  ]

  /** `Math.round(n * 2.5)` for a parsed cost `n`, NaN staying NaN. */
  function Suggested(cost: Number): (r: Number)
    ensures r.None? <==> cost.None?
    ensures r.Some? ==> r.value == (5 * cost.value + 1) / 2
  {
    match cost
    case None => None
    case Some(n) =>
      var k := MathRound(5 * n, 2);
      MathRoundUnique(5 * n, 2, (5 * n + 1) / 2);
      Some(k)
  }

  /** The difference of two numbers, NaN when either is NaN. */
  function Minus(a: Number, b: Number): (r: Number)
    ensures r.Some? <==> a.Some? && b.Some?
    ensures r.Some? ==> r.value + b.value == a.value
  {
    if a.Some? && b.Some? then Some(a.value - b.value) else None
  }

  /** The profit for a parsed cost: the suggested price less the cost. */
  function ProfitOf(cost: Number): Number {
    Minus(Suggested(cost), cost)
  }

  /** The suggested selling price of a product: its parsed cost times 2.5, rounded. */
  function SuggestedPrice(p: ProductData): Number {
    Suggested(ParseInt(p.costPrice))
  }

  /** The profit the page shows: the suggested price minus the parsed cost. */
  function Profit(p: ProductData): Number {
    ProfitOf(ParseInt(p.costPrice))
  }

  /** The five step cards, in display order. */
  function Steps(p: ProductData): seq<Step> {
    [PhotoStep(p), DescriptionStep(p), PricingStep(p), SearchStep(p), LaunchStep(p)]
  }

  function PhotoStep(p: ProductData): Step {
    Step(StepTitles[0], "For " + Lower(p.category) + ", focus on:", [
      "Use natural lighting or a ring light",
      "Show multiple angles (front, back, close-ups)",
      "Include size/scale references",
      "Keep backgrounds clean and simple",
      "Show the product in use if possible"
    ])
  }

  function DescriptionStep(p: ProductData): Step {
    Step(StepTitles[1], "Based on your product, here's what to highlight:", [
      "Product name: \"" + p.productName + "\"",
      "Key benefits and features",
      "Materials/ingredients used",
      "Size, color, and variant options",
      "Care instructions or usage tips"
    ])
  }

  function PricingStep(p: ProductData): Step {
    Step(StepTitles[2], "For " + p.platform + ":", [
      "Cost price: " + (Rupee + p.costPrice),
      "Suggested selling price: " + (Rupee + ShowNumber(SuggestedPrice(p))),
      "Profit margin: " + (Rupee + ShowNumber(Profit(p))),
      "Research competitor prices",
      "Consider platform fees and shipping"
    ])
  }

  function SearchStep(p: ProductData): Step {
    Step(StepTitles[3], "Make your listing discoverable:", [
      "Use relevant keywords for " + p.category,
      "Include brand name and model if applicable",
      "Add trending hashtags",
      "Choose the right category",
      "Fill all optional fields"
    ])
  }

  function LaunchStep(p: ProductData): Step {
    Step(StepTitles[4], "Get your first sales:", [
      "Share with friends and family first",
      "Join relevant WhatsApp/Facebook groups",
      "Offer launch discounts",
      "Ask for honest reviews",
      "Post on social media"
    ])
  }

  /** The summary card. */
  function SummaryOf(p: ProductData): Summary {
    Summary(p.productName, p.category, p.platform,
      Rupee + p.costPrice, Rupee + ShowNumber(SuggestedPrice(p)), Rupee + ShowNumber(Profit(p)))
  }

  function GuideOf(p: ProductData): Guide {
    Guide(SummaryOf(p), Steps(p))
  }

  /**
   * The page for the stored item `item` (absent when nothing is stored),
   * `parsed` being what JSON.parse makes of its text: absent for a value the
   * page treats as false (null, 0, false or the empty string). An absent or
   * empty item redirects to `/sell-online`; an item that parses to
   * such a value leaves the page empty.
   */
  function Render(item: Option<string>, parsed: Option<ProductData>): (page: Page)
    ensures page.Redirect? <==> item.None? || item.value == ""
    ensures page.Redirect? ==> page.path == "/sell-online"
    ensures page.Blank? <==> item.Some? && item.value != "" && parsed.None?
    ensures page.Display? ==> page.guide == GuideOf(parsed.value)
  {
    if item.None? || item.value == "" then Redirect(RedirectPath)
    else if parsed.None? then Blank
    else Display(GuideOf(parsed.value))
  }

  /** The profit is the suggested price less the cost, and is NaN exactly when the cost is. */
  lemma ProfitIsMargin(cost: Number)
    ensures ProfitOf(cost).None? <==> cost.None?
    ensures cost.Some? ==>
      ProfitOf(cost).value == Suggested(cost).value - cost.value &&
      ProfitOf(cost).value == (3 * cost.value + 1) / 2
  {
  }

  /** A price of at least 2.5 times a non-negative cost, so the profit is never negative. */
  lemma NonNegativeCostProfits(n: int)
    requires n >= 0
    ensures Suggested(Some(n)).value >= n
    ensures 2 * Suggested(Some(n)).value >= 5 * n
    ensures ProfitOf(Some(n)).value >= 0
  {
  }

  /** An even cost gives exactly 2.5 times the cost; an odd one gives the half above it. */
  lemma ParityOfCost(n: int)
    ensures n % 2 == 0 ==> 2 * Suggested(Some(n)).value == 5 * n
    ensures n % 2 == 1 ==> 2 * Suggested(Some(n)).value == 5 * n + 1
  {
  }

  /** Halves round up, also below zero: a cost of -3 gives -7 for -7.5, and a profit of -4. */
  lemma NegativeOddCost()
    ensures Suggested(Some(-3)) == Some(-7) && ProfitOf(Some(-3)) == Some(-4)
  {
  }

  /** There are five steps in a fixed order, each with five entries. */
  lemma StepsShape(p: ProductData)
    ensures |Steps(p)| == |StepTitles| == 5
    ensures forall i :: 0 <= i < 5 ==> Steps(p)[i].title == StepTitles[i] && |Steps(p)[i].details| == 5
  {
    var s := Steps(p);
    forall i | 0 <= i < 5 ensures s[i].title == StepTitles[i] && |s[i].details| == 5 {
      if i == 0 { assert s[i] == PhotoStep(p); }
      else if i == 1 { assert s[i] == DescriptionStep(p); }
      else if i == 2 { assert s[i] == PricingStep(p); }
      else if i == 3 { assert s[i] == SearchStep(p); }
      else { assert s[i] == LaunchStep(p); }
    }
  }

  /** A cost that parses as `n` is shown as price `(5n + 1) div 2` and profit `(3n + 1) div 2`. */
  lemma PriceShown(p: ProductData, n: int)
    requires ParseInt(p.costPrice) == Some(n)
    ensures ShowNumber(SuggestedPrice(p)) == Show((5 * n + 1) / 2)
    ensures ShowNumber(Profit(p)) == Show((3 * n + 1) / 2)
  {
    assert SuggestedPrice(p) == Suggested(Some(n)) == Some((5 * n + 1) / 2);
    ProfitIsMargin(Some(n));
    assert Profit(p) == ProfitOf(Some(n)) == Some((3 * n + 1) / 2);
  }

  /**
   * The pricing step lists the cost as stored, then the suggested price and
   * the profit computed from the parsed cost `n`.
   */
  lemma PricingStepDetails(p: ProductData, n: int)
    requires ParseInt(p.costPrice) == Some(n)
    ensures PricingStep(p).title == "Smart Pricing Strategy"
    ensures PricingStep(p).details[0] == "Cost price: " + (Rupee + p.costPrice)
    ensures PricingStep(p).details[1] == "Suggested selling price: " + (Rupee + Show((5 * n + 1) / 2))
    ensures PricingStep(p).details[2] == "Profit margin: " + (Rupee + Show((3 * n + 1) / 2))
  {
    PriceShown(p, n);
  }

  /** A cost that does not parse shows NaN for the suggested price and the profit. */
  lemma PricingStepNaN(p: ProductData)
    requires ParseInt(p.costPrice).None?
    ensures PricingStep(p).details[1] == "Suggested selling price: " + (Rupee + "NaN")
    ensures PricingStep(p).details[2] == "Profit margin: " + (Rupee + "NaN")
  {
  }

  /** The summary card and the pricing step show the same cost, price and profit. */
  lemma SummaryAgreesWithPricing(p: ProductData)
    ensures "Cost price: " + SummaryOf(p).costPrice == PricingStep(p).details[0]
    ensures "Suggested selling price: " + SummaryOf(p).suggestedPrice == PricingStep(p).details[1]
    ensures "Profit margin: " + SummaryOf(p).profit == PricingStep(p).details[2]
  {
  }

  /** A cost of "100" is priced at 250 with a profit of 150. */
  lemma EvenCostExample(p: ProductData)
    requires p.costPrice == "100"
    ensures SuggestedPrice(p) == Some(250) && Profit(p) == Some(150)
  {
    ParseIntExample100();
    var c := ParseInt(p.costPrice);
    assert c == Some(100);
    EvenCostPrice();
  }

  lemma EvenCostPrice()
    ensures Suggested(Some(100)) == Some(250) && ProfitOf(Some(100)) == Some(150)
  {
  }

  /** A cost of "99" is 247.5 times one, which rounds to 248 with a profit of 149. */
  lemma OddCostExample(p: ProductData)
    requires p.costPrice == "99"
    ensures SuggestedPrice(p) == Some(248) && Profit(p) == Some(149)
  {
    ParseIntExample99();
    var c := ParseInt(p.costPrice);
    assert c == Some(99);
    OddCostPrice();
  }

  lemma OddCostPrice()
    ensures Suggested(Some(99)) == Some(248) && ProfitOf(Some(99)) == Some(149)
  {
  }

  /** A cost that is not a number shows NaN for the price and the profit. */
  lemma UnparsedCostExample(p: ProductData)
    requires p.costPrice == "abc"
    ensures ShowNumber(SuggestedPrice(p)) == "NaN" && ShowNumber(Profit(p)) == "NaN"
  {
    TrimStartNoSpace("abc");
    ParseIntNaN("abc");
  }
}
