# Start-a-business chat and listing guide, in Dafny

This project models two pages of a small web app for first-time sellers.

- **The "start a business" chat.** A bot greets the visitor with five
  suggestion chips. Each message the visitor types or clicks is logged
  untrimmed, the input box is cleared, and a typing indicator is shown.
  The reply comes later, when a timer fires. It is chosen by the first of
  four keyword rules (fashion, beauty, snack, craft) that finds one of its
  keywords in the lower-cased message. A fallback reply answers everything
  else. Each reply carries its own suggestion chips.
- **The listing guide.** It reads the product record stored under
  `product_data`. Without one, it redirects to `/sell-online`. With one, it
  shows:
  - a summary card;
  - five step cards;
  - a suggested selling price, `Math.round(parseInt(cost) * 2.5)`;
  - the profit that price leaves over the parsed cost.

Files and modules:

| file | module | contents |
|---|---|---|
| `wrappers.dfy` | `Wrappers` | `Option` |
| `text.dfy` | `Text` | JavaScript `trim`, `toLowerCase` and `includes` on `seq<char>` |
| `responder.dfy` | `Responder` | the replies, their chips, the rule table, `Respond` |
| `chat_log.dfy` | `ChatLog` | the messages, the message log and the queue of pending replies, and the invariant that ties them together |
| `chat.dfy` | `Chat` | the `Conversation` class with the page's event handlers, and scenarios built from them |
| `numbers.dfy` | `Numbers` | `parseInt` (section 19.2.5 of ECMA-262) and `Math.round` (section 21.3.2.28 of ECMA-262) on exact integers, with NaN as `None`; the decimal text of an integer |
| `listing_guide.dfy` | `ListingGuide` | the product record, the price and profit, the steps, the summary, the page itself |

Modelling choices:

- **Chat state.** The chat page's state is a `Conversation` object with four
  fields. Three are the page's own React state: `messages`, `inputValue` and
  `isTyping`. The fourth, `pending`, is the queue of messages whose reply
  timer is still running, oldest first.
- **Timers.** All timers have the same 1500 ms delay, so they fire in the
  order they were started. Firing one is the method `Deliver`.
- **Clock.** The clock reading used as a message id is a parameter `now`.
- **The invariant `Valid`.** It says five things:
  - the greeting comes first;
  - no user message is blank;
  - the bot has answered the first user messages in order, each with
    `Respond` of its own text, and the queue holds exactly the rest;
  - no reply comes before the message it answers: no prefix of the log
    holds more replies than user messages;
  - the indicator is shown only while a reply is queued.
- **`Respond`.** It is defined from a rule table with first-match-wins.
  `RespondIsChainedReply` proves it equal to the page's `if`/`else if`
  chain, written out as `ChainedReply`.
- **Listing guide.** The page is the function `Render` of the stored item
  and of what `JSON.parse` makes of it.

Where the code and the intended design part ways, the model follows the code:

- **No lock while a reply is pending.** The send button is disabled while
  the indicator shows. Enter and the chips are not, so a second message can
  be sent while a reply is pending. The first timer then hides the
  indicator although a second reply is still queued (`SecondSendScenario`).
- **A stored `null` shows nothing.** A stored item that parses to `null`
  does not redirect; the page stays empty (`Render`, case `Blank`).

## Model

| member | source | states |
|---|---|---|
| Text.TrimStart | src/components/StartBusinessPage.tsx:52 | the result is a suffix of the input; everything dropped is ECMAScript white space; the result does not start with white space |
| Text.TrimEnd | src/components/StartBusinessPage.tsx:52 | the result is a prefix of the input; everything dropped is white space; the result does not end with white space |
| Text.Trim | src/components/StartBusinessPage.tsx:52 | `trim()` is the stretch of the input that starts after the leading white space and is followed only by white space; it neither starts nor ends with white space, and is empty exactly when every character is white space |
| Text.IsJsSpace | src/components/StartBusinessPage.tsx:52 | the characters `trim()` removes: the WhiteSpace and LineTerminator code points of ECMA-262, also those the send button's test at line 227 ignores |
| Text.IsBlank | src/components/StartBusinessPage.tsx:52 | the test `!message.trim()`, stated as every character being white space; `BlankIffTrimEmpty` ties it to `Trim` |
| Text.BlankIffTrimEmpty | src/components/StartBusinessPage.tsx:52 | the blank test used by the model (all characters white space) is exactly `!message.trim()` |
| Text.TrimStartSkips | src/components/ListingGuidePage.tsx:30 | skipping leading white space gives the same text however much white space precedes it |
| Text.LowerChar | src/components/StartBusinessPage.tsx:70 | an ASCII capital maps to its small letter (32 code points on); every other character is unchanged |
| Text.Lower | src/components/StartBusinessPage.tsx:70 | `toLowerCase` keeps the length and lower-cases each character in place |
| Text.LowerConcat | src/components/StartBusinessPage.tsx:70 | lower-casing distributes over concatenation |
| Text.LowerIdempotent | src/components/StartBusinessPage.tsx:70 | lower-casing twice is lower-casing once |
| Text.LowerOfNoUpperCase | src/components/StartBusinessPage.tsx:70 | a string without capitals is its own lower case |
| Text.LowerCaseVariants | src/components/StartBusinessPage.tsx:70 | strings that differ only in letter case have the same lower case |
| Text.Contains | src/components/StartBusinessPage.tsx:72 | `includes`: the keyword occurs at some position of the text; `ContainsInfix` and `AbsentCharNotContained` state when it does and when not |
| Text.ContainsInfix | src/components/StartBusinessPage.tsx:72 | `includes` finds a keyword anywhere, also inside a longer word |
| Text.AbsentCharNotContained | src/components/StartBusinessPage.tsx:72 | a text lacking one character of a keyword does not include that keyword |
| Responder.Suggestions | src/components/StartBusinessPage.tsx:36-95 | the chips under each reply, verbatim from lines 36, 75, 80, 85, 90 and 95; `NoKeywordFallback` states the fallback's, and `ChipsNotBlank` states that none is blank |
| Responder.Keywords | src/components/StartBusinessPage.tsx:72-87 | the two keywords of each rule, from lines 72, 77, 82 and 87, in the order of `Rules`; `KeywordsAreLowerCase` states they are lower case |
| Responder.AnyKeyword | src/components/StartBusinessPage.tsx:72 | a disjunction of `includes` tests is true exactly when some keyword of the list occurs |
| Responder.FirstMatch | src/components/StartBusinessPage.tsx:72-97 | the result names a rule that fires and no earlier rule fires; it is absent exactly when no rule fires |
| Responder.Respond | src/components/StartBusinessPage.tsx:70-97 | the reply to a message: that of the first rule of `Rules` with a keyword in the lower-cased message, or the fallback; `RespondIsChainedReply` proves it equal to the page's chain, `FallbackIffNoRule` and `FirstMatchWins` state both cases |
| Responder.ChainedReply | src/components/StartBusinessPage.tsx:72-97 | the page's `if`/`else if` chain of `includes` tests written out, the reference definition `RespondIsChainedReply` compares `Respond` with |
| Responder.FallbackIffNoRule | src/components/StartBusinessPage.tsx:92-96 | the fallback reply is given exactly when none of the four rules fires on the lower-cased message |
| Responder.RespondIsChainedReply | src/components/StartBusinessPage.tsx:70-97 | the rule table with first-match-wins gives the same reply as the page's chain of `includes` tests on the lower-cased message |
| Responder.FirstMatchWins | src/components/StartBusinessPage.tsx:72-91 | a rule one of whose keywords occurs decides the reply when no earlier rule fires, whatever later rules would say |
| Responder.NoKeywordFallback | src/components/StartBusinessPage.tsx:92-96 | a message with none of the eight keywords gets the fallback reply with its four chips |
| Responder.CaseInsensitive | src/components/StartBusinessPage.tsx:70 | messages that differ only in letter case get the same reply |
| Responder.KeywordsAreLowerCase | src/components/StartBusinessPage.tsx:72-87 | every keyword is its own lower case, so each can match the lower-cased message |
| Responder.KeywordInsideWord | src/components/StartBusinessPage.tsx:72-87 | a keyword inside a longer word fires its rule when no earlier rule fires |
| Responder.RespondVia | src/components/StartBusinessPage.tsx:70-97 | the reply is the chain's reply on the lower-cased message, whatever that is written as |
| Responder.ExampleClothingAndFood | src/components/StartBusinessPage.tsx:72-86 | "clothing and food" matches two rules; the earlier one, fashion, answers |
| Responder.ExampleSnacks | src/components/StartBusinessPage.tsx:82-86 | the plural "snacks" gets the snack reply |
| Responder.ExampleCraftsman | src/components/StartBusinessPage.tsx:87-91 | "craftsman" gets the craft reply through the infix "craft" |
| Responder.ExampleNoKeyword | src/components/StartBusinessPage.tsx:92-96 | a message without keywords gets the fallback |
| Responder.ExampleHomemadeSnacks | src/components/StartBusinessPage.tsx:36 | the greeting chip "Homemade Snacks" gets the snack reply |
| Responder.ExampleHandmadeCrafts | src/components/StartBusinessPage.tsx:36 | the greeting chip "Handmade Crafts" gets the craft reply |
| Responder.ExampleDigitalServices | src/components/StartBusinessPage.tsx:36 | the greeting chip "Digital Services" gets the fallback |
| Responder.ExampleSellFashion | src/components/StartBusinessPage.tsx:72-76 | a capitalised sentence about fashion gets the fashion reply |
| ChatLog.Asked | src/components/StartBusinessPage.tsx:55-60 | the log has at least as many entries as user messages (contents in order, per `AskedAppend`) |
| ChatLog.Answered | src/components/StartBusinessPage.tsx:41-49 | the log has at least as many entries as bot replies (replies in order, per `AskedAppend`) |
| ChatLog.AskedAppend | src/components/StartBusinessPage.tsx:48 | appending to the log appends the user message or the bot reply, and nothing else changes |
| ChatLog.Replies | src/components/StartBusinessPage.tsx:66-98 | one reply per user message |
| ChatLog.RepliesAt | src/components/StartBusinessPage.tsx:66-98 | the i-th reply is the reply to the i-th user message |
| ChatLog.AnswersMeans | src/components/StartBusinessPage.tsx:51-99 | in an agreeing log every answered message has its own reply, and the queue holds exactly the remaining messages in order |
| ChatLog.AnswersAsk | src/components/StartBusinessPage.tsx:55-66 | a new user message goes to the back of the queue |
| ChatLog.AnswersReply | src/components/StartBusinessPage.tsx:66-98 | replying to the oldest queued message answers it and takes it off the queue |
| ChatLog.SendKeeps | src/components/StartBusinessPage.tsx:55-66 | logging a user message and queueing it keeps log and queue in agreement |
| ChatLog.DeliverKeeps | src/components/StartBusinessPage.tsx:66-98 | logging the reply to the head of the queue keeps log and queue in agreement |
| ChatLog.RepliesFollow | src/components/StartBusinessPage.tsx:51-99 | no prefix of the log holds more replies than user messages: each reply comes after the message it answers |
| ChatLog.RepliesFollowAppend | src/components/StartBusinessPage.tsx:48 | appending a message keeps replies after their messages exactly when the whole log has no more replies than messages |
| ChatLog.RepliesFollowPrefixes | src/components/StartBusinessPage.tsx:51-99 | `RepliesFollow` bounds the replies by the messages in every prefix of the log |
| ChatLog.Consistent | src/components/StartBusinessPage.tsx:51-99 | log and queue agree (`Answers`) and every reply follows its message (`RepliesFollow`); `SendKeeps` and `DeliverKeeps` show each step keeps it |
| ChatLog.AnsweredOrPending | src/components/StartBusinessPage.tsx:51-99 | every user message has been answered or is waiting for its reply |
| ChatLog.WellFormed | src/components/StartBusinessPage.tsx:30-99 | the greeting `GreetingMessage` (id "1", lines 32-37) comes first, no user message is blank (line 52), the rest of the log is `Consistent` with the queue under `Respond`, and the indicator shows only while a reply is queued |
| ChatLog.SendWellFormed | src/components/StartBusinessPage.tsx:52-64 | a send of a message that passes the blank test at line 52 keeps the page state well-formed |
| ChatLog.BlankMessageRejected | src/components/StartBusinessPage.tsx:52 | a log holding a blank user message is never well-formed |
| ChatLog.NoBlankMessages | src/components/StartBusinessPage.tsx:52 | every user message of the log passes the blank test; `BlankMessageRejected` shows a blank one is excluded and `SendWellFormed` that sends keep it |
| ChatLog.ReplyBeforeMessageRejected | src/components/StartBusinessPage.tsx:51-99 | a log that shows a reply before the message it answers is not well-formed, whatever the reply and the queue |
| ChatLog.DeliverWellFormed | src/components/StartBusinessPage.tsx:66-98 | a timer firing keeps the page state well-formed |
| Chat.Conversation.Valid | src/components/StartBusinessPage.tsx:16-110 | the page state is `WellFormed`; every handler below keeps it |
| Chat.Conversation.constructor | src/components/StartBusinessPage.tsx:30-39 | after mount the log holds only the greeting `GreetingMessage` (id "1", with the five chips of line 36), the box is empty, no indicator, no timer |
| Chat.Conversation.SetInput | src/components/StartBusinessPage.tsx:220 | typing replaces the box's contents and changes nothing else |
| Chat.Conversation.SendEnabled | src/components/StartBusinessPage.tsx:227 | the send button is enabled exactly when the trimmed box is not empty and no indicator is shown |
| Chat.Conversation.Send | src/components/StartBusinessPage.tsx:51-66 | a blank message changes nothing; otherwise the untrimmed message is appended to the log, the box is cleared, the indicator is shown and the message is queued |
| Chat.Conversation.SendInput | src/components/StartBusinessPage.tsx:226-227 | the send button, clickable only while `SendEnabled`, appends the box's contents to the log, clears the box, shows the indicator and queues the message |
| Chat.Conversation.ClickSuggestion | src/components/StartBusinessPage.tsx:101-103 | a chip sends its label, whatever the box holds |
| Chat.Conversation.KeyPress | src/components/StartBusinessPage.tsx:105-110 | Enter without Shift sends the box's contents; any other key leaves the state unchanged |
| Chat.Conversation.Deliver | src/components/StartBusinessPage.tsx:66-98 | the oldest timer fires: the indicator is hidden and the reply to the oldest queued message is appended |
| Chat.ChipThenReply | src/components/StartBusinessPage.tsx:101-103 | on the fresh page a non-blank chip followed by its timer leaves greeting, chip label, reply |
| Chat.TypedEqualsClicked | src/components/StartBusinessPage.tsx:101-103 | clicking a chip leaves the same state as typing its label and pressing Enter |
| Chat.ChipsNotBlank | src/components/StartBusinessPage.tsx:36-95 | no chip under any of the six replies is blank, so clicking any chip sends it and meets the precondition of `ChipThenReply` and `TypedEqualsClicked` |
| Chat.SecondSendScenario | src/components/StartBusinessPage.tsx:64-67 | after two sends and one timer the indicator is hidden while a reply is still queued |
| Numbers.DigitValue | src/components/ListingGuidePage.tsx:30 | the digit value of a decimal digit or a letter |
| Numbers.ValueOf | src/components/ListingGuidePage.tsx:30 | the value of a digit string, most significant digit first; `ValueOfShowNat` states it inverts `ShowNat` |
| Numbers.DigitRun | src/components/ListingGuidePage.tsx:30 | the longest digit prefix: all its characters are digits and the next one is not |
| Numbers.DigitRunOfDigits | src/components/ListingGuidePage.tsx:30 | a digit string followed by a non-digit is a digit run of its own length |
| Numbers.ParseDigits | src/components/ListingGuidePage.tsx:30 | no value exactly when the text does not start with a digit |
| Numbers.ShowNat | src/components/ListingGuidePage.tsx:63 | decimal digits only, never empty, with no leading zero |
| Numbers.ValueOfShowNat | src/components/ListingGuidePage.tsx:63 | reading back the decimal text of n gives n |
| Numbers.MagnitudeShowNat | src/components/ListingGuidePage.tsx:30 | the magnitude reader, which first tests for "0x", reads the decimal text of n back as n when a character that ends a number follows |
| Numbers.DigitsOfShowNat | src/components/ListingGuidePage.tsx:30 | the radix-10 digit reader reads the decimal text of n back as n when a character that ends a number follows |
| Numbers.Show | src/components/ListingGuidePage.tsx:63-64 | the text of an integer: never empty, "-" first exactly for a negative one, digits after that |
| Numbers.ShowNumber | src/components/ListingGuidePage.tsx:150-151 | the text of a number is "NaN" exactly when the number is NaN |
| Numbers.ParseInt | src/components/ListingGuidePage.tsx:30 | `parseInt(s)` with no radix: skip white space, then the signed number; `ParseIntShow`, `ParseIntSkipsSpace`, `ParseIntNaN`, `ParseIntStopsAtNonDigit` and `ParseIntHex` state its behaviour |
| Numbers.ParseSigned | src/components/ListingGuidePage.tsx:30 | an optional "+" or "-" before the magnitude; `SignedShow`, `SignedMinus` and `SignedDigit` state it |
| Numbers.ParseMagnitude | src/components/ListingGuidePage.tsx:30 | hexadecimal digits after "0x" or "0X", decimal digits otherwise; `HexMagnitude` and `MagnitudeShowNat` state it |
| Numbers.ParseIntShow | src/components/ListingGuidePage.tsx:30 | `parseInt` of the decimal text of any integer, with any text after it that ends a number, gives the integer back |
| Numbers.SignedShow | src/components/ListingGuidePage.tsx:30 | the signed text of any integer reads back as that integer |
| Numbers.NegativeShow | src/components/ListingGuidePage.tsx:30 | the text of a negative integer reads back as that integer |
| Numbers.NonNegativeShow | src/components/ListingGuidePage.tsx:30 | the text of a non-negative integer reads back as that integer |
| Numbers.SignedMinus | src/components/ListingGuidePage.tsx:30 | a leading "-" negates the magnitude |
| Numbers.SignedDigit | src/components/ListingGuidePage.tsx:30 | text starting with a digit has no sign |
| Numbers.ParseIntSkipsSpace | src/components/ListingGuidePage.tsx:30 | leading white space does not change `parseInt` |
| Numbers.ParseIntNaN | src/components/ListingGuidePage.tsx:30 | text that, after white space, is empty or starts with something other than a digit or sign parses to NaN |
| Numbers.ParseIntStopsAtNonDigit | src/components/ListingGuidePage.tsx:30 | `parseInt` reads the leading decimal digits and ignores the rest |
| Numbers.PlainDecimal | src/components/ListingGuidePage.tsx:30 | text starting with 1 to 9 is read as decimal digits |
| Numbers.DigitsThenStop | src/components/ListingGuidePage.tsx:30 | a digit run ends at the first non-digit, with the value of the digits before it |
| Numbers.ParseIntHex | src/components/ListingGuidePage.tsx:30 | "0x" or "0X" followed by hexadecimal digits is read in hexadecimal |
| Numbers.HexText | src/components/ListingGuidePage.tsx:30 | after "0x" the rest is read as hexadecimal digits |
| Numbers.HexMagnitude | src/components/ListingGuidePage.tsx:30 | after "0x" the magnitude is read in radix 16 |
| Numbers.ParseIntHexExample | src/components/ListingGuidePage.tsx:30 | "0x1A" parses to 26 |
| Numbers.ParseIntBarePrefix | src/components/ListingGuidePage.tsx:30 | "0x" alone is NaN, "0" is 0 |
| Numbers.ParseIntExample100 | src/components/ListingGuidePage.tsx:30 | "100" parses to 100 |
| Numbers.ParseIntExample99 | src/components/ListingGuidePage.tsx:30 | "99" parses to 99 |
| Numbers.MathRound | src/components/ListingGuidePage.tsx:30 | the result is within half of the rational number, the lower half-point included (halves go up) |
| Numbers.MathRoundUnique | src/components/ListingGuidePage.tsx:30 | only one integer meets that bound, so rounding is determined |
| Numbers.MathRoundHalves | src/components/ListingGuidePage.tsx:30 | a value exactly halfway between k and k + 1 rounds to k + 1, for negative k too |
| ListingGuide.Suggested | src/components/ListingGuidePage.tsx:30 | NaN exactly for a NaN cost; otherwise 2.5 times the cost rounded half up, that is (5n + 1) div 2 |
| ListingGuide.Minus | src/components/ListingGuidePage.tsx:64 | a difference, NaN when either operand is NaN |
| ListingGuide.ProfitOf | src/components/ListingGuidePage.tsx:64 | the suggested price less the parsed cost; `ProfitIsMargin` states its value |
| ListingGuide.SuggestedPrice | src/components/ListingGuidePage.tsx:30 | `Suggested` of `parseInt` of the stored cost text; `EvenCostExample`, `OddCostExample` and `UnparsedCostExample` state it on examples |
| ListingGuide.Profit | src/components/ListingGuidePage.tsx:151 | `ProfitOf` the parsed stored cost, as on the pricing step and the summary card |
| ListingGuide.ProfitIsMargin | src/components/ListingGuidePage.tsx:64 | the profit is the suggested price less the parsed cost, (3n + 1) div 2, and NaN exactly when the cost is NaN |
| ListingGuide.NonNegativeCostProfits | src/components/ListingGuidePage.tsx:30 | for a non-negative cost the price is at least 2.5 times the cost and the profit is not negative |
| ListingGuide.ParityOfCost | src/components/ListingGuidePage.tsx:30 | an even cost gives exactly 2.5 times it; an odd one gives the half above |
| ListingGuide.NegativeOddCost | src/components/ListingGuidePage.tsx:30 | a cost of -3 gives a price of -7 for -7.5 (halves go up) and a profit of -4 |
| ListingGuide.Render | src/components/ListingGuidePage.tsx:19-28 | no stored item, or an empty one, redirects to `/sell-online`; an item that parses to a value the page treats as false shows nothing; otherwise the guide for the parsed `ProductData` record (lines 7-13) is shown |
| ListingGuide.Steps | src/components/ListingGuidePage.tsx:32-93 | the five step cards in display order; `StepsShape` states titles and sizes |
| ListingGuide.PhotoStep | src/components/ListingGuidePage.tsx:33-44 | the photo step, its line naming the lower-cased category |
| ListingGuide.DescriptionStep | src/components/ListingGuidePage.tsx:45-56 | the description step, its first entry quoting the product name |
| ListingGuide.PricingStep | src/components/ListingGuidePage.tsx:57-68 | the pricing step; `PricingStepDetails` states its entries |
| ListingGuide.SearchStep | src/components/ListingGuidePage.tsx:69-80 | the search step, its first entry naming the category |
| ListingGuide.LaunchStep | src/components/ListingGuidePage.tsx:81-92 | the launch step with its fixed entries |
| ListingGuide.SummaryOf | src/components/ListingGuidePage.tsx:144-151 | the summary card's six values; `SummaryAgreesWithPricing` ties its prices to the pricing step |
| ListingGuide.GuideOf | src/components/ListingGuidePage.tsx:32-152 | the summary card and the five steps of a product record |
| ListingGuide.StepsShape | src/components/ListingGuidePage.tsx:32-93 | five steps with the fixed titles in order, each with five checklist entries |
| ListingGuide.PricingStepDetails | src/components/ListingGuidePage.tsx:57-68 | for a cost that parses as `n`, the pricing step lists the cost as stored, then `₹` and the suggested price `(5n + 1) div 2`, then `₹` and the profit `(3n + 1) div 2` |
| ListingGuide.PriceShown | src/components/ListingGuidePage.tsx:30 | for a cost that parses as `n`, the page writes the suggested price as the text of `(5n + 1) div 2` and the profit as that of `(3n + 1) div 2` |
| ListingGuide.PricingStepNaN | src/components/ListingGuidePage.tsx:63-64 | for a cost that does not parse, the pricing step shows `₹NaN` for both the suggested price and the profit |
| ListingGuide.SummaryAgreesWithPricing | src/components/ListingGuidePage.tsx:149-151 | the summary card shows the same cost, price and profit as the pricing step |
| ListingGuide.EvenCostExample | src/components/ListingGuidePage.tsx:30 | a cost of "100" gives a price of 250 and a profit of 150 |
| ListingGuide.OddCostExample | src/components/ListingGuidePage.tsx:30 | a cost of "99" gives 248 for 247.5 and a profit of 149 |
| ListingGuide.UnparsedCostExample | src/components/ListingGuidePage.tsx:30 | a cost of "abc" shows NaN as price and as profit |

## Left out

- Rendering, styling, icons, scrolling to the newest message and the back buttons: they do not change the modelled state.
- The reply texts: each reply is a constructor of `Reply`. Its suggestion chips are kept verbatim.
- Timers: each 1500 ms timer becomes one `Deliver` call, taken in the order the timers started. Timers that are cancelled or reordered are not modelled.
- Message ids: the source uses the string "1" and `Date.now().toString()`. The model takes a number `now` from the caller, so it does not claim ids are unique.
- Lower: `toLowerCase` acts on ASCII letters only. JavaScript lower-cases other characters too, some of them to ASCII letters (U+212A KELVIN SIGN becomes "k"), so rule selection can differ: "snac\u212A" gets the snack reply on the page and the fallback in the model.
- CaseInsensitive: covers messages that differ in the case of ASCII letters only, for the reason above.
- JavaScript strings are UTF-16 code units; the model's strings are sequences of Unicode characters.
- `localStorage` and `JSON.parse` are parameters of `Render`. Invalid JSON that throws is not modelled, nor is a parsed value lacking a field. Every parsed value the page treats as false (`null`, `0`, `false`, `""`) is the one absent value of `Render`'s `parsed`.
- When the record is missing, the redirect goes through `navigate` in an effect. `Render` returns the redirect as its result.
- The first renders before the mount effects run are not modelled: the guide shows nothing until its effect has read the stored item, and the chat shows an empty log (src/components/StartBusinessPage.tsx:16) until its effect puts the greeting in. The `Conversation` constructor gives the state after that effect.
- Numbers: numbers are exact integers. JavaScript doubles are not modelled: digit strings of more than 15 or so digits, `Infinity`, and costs with |5n| of 2^53 or more are beyond the model.
- ParseInt: the optional radix argument is not modelled, and negative zero is the integer 0, shown as "0".
- ParseIntNaN: covers the cases with no digit or sign after the white space; a sign followed by no digits is also NaN, which `ParseSigned` gives but no lemma states.
- The login page is not part of this model.
