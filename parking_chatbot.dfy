/**
 * The parking chatbot (Frontend/Front-end/src/services/parkingChatbot.js):
 * keyword dispatch of a message, extraction of the location, time and date
 * from the regular-expression matches, and the formatting of search results.
 *
 * The regular expressions themselves are not modelled: each extraction takes
 * what `message.match(pattern)` returned. The search is a fetch and is a
 * parameter.
 */
module ParkingChatbot {
  import opened Common

  // ------------------------------------------------------------ keywords

  const ParkingKeys: seq<string> := ["parking", "park", "spot", "find", "near", "book", "reserve"]
  const GreetingWords: seq<string> := ["hi", "hello", "hey", "good morning", "good evening"]

  /** `isParkingQuery`: the message contains one of the seven keywords. */
  predicate IsParkingQuery(msg: string) {
    exists k :: k in ParkingKeys && Contains(msg, k)
  }

  /** `isGreeting`: the message contains a greeting anywhere, even inside a word. */
  predicate IsGreeting(msg: string) {
    exists g :: g in GreetingWords && Contains(msg, g)
  }

  datatype Intent = Greet | ParkingRequest | ConfirmBooking | Help | NotUnderstood

  /** The branch `handleUserMessage` takes for the lower-cased message, in source order. */
  function IntentOf(clean: string): Intent {
    if IsGreeting(clean) then Greet
    else if IsParkingQuery(clean) then ParkingRequest
    else if Contains(clean, "book") && Contains(clean, "yes") then ConfirmBooking
    else if Contains(clean, "help") then Help
    else NotUnderstood
  }

  /** The booking-confirmation branch is dead: "book" is itself a parking keyword. */
  lemma ConfirmBookingUnreachable(clean: string)
    ensures IntentOf(clean) != ConfirmBooking
  {
    if Contains(clean, "book") {
      assert "book" in ParkingKeys;
    }
  }

  /** The greeting test runs first and matches "hi" inside "delhi". */
  lemma DelhiIsAGreeting()
    ensures IntentOf("find parking in delhi") == Greet
  {
    var msg := "find parking in delhi";
    assert OccursAt(msg, "hi", 19);
    assert "hi" in GreetingWords;
  }

  /** A message with a parking keyword and no greeting is a parking request. */
  lemma ParkingKeywordIsRequest(clean: string, k: string)
    requires k in ParkingKeys && Contains(clean, k) && !IsGreeting(clean)
    ensures IntentOf(clean) == ParkingRequest
  {
  }

  // ------------------------------------------------------------- parsing

  /** What `message.match(pattern)` returned: element 0 and, when present,
      element 1 (a capture group for the first pattern; for the two global
      patterns it is the second occurrence). */
  datatype MatchArray = MatchArray(first: string, second: Option<string>)

  /** `match[1] || match[0]`. */
  function Pick(m: MatchArray): string {
    if Truthy(m.second) then m.second.value else m.first
  }

  datatype Parsed = Parsed(location: Option<string>, date: Option<string>,
                           startTime: Option<string>, endTime: Option<string>)

  /** The location the pattern loop settles on: the pick of the first
      pattern that matched, or null when none did. */
  function FirstLocation(matches: seq<Option<MatchArray>>): (r: Option<string>)
    ensures r.None? <==> forall k :: 0 <= k < |matches| ==> matches[k].None?
    ensures r.Some? ==> exists k :: (0 <= k < |matches| && matches[k].Some? && r.value == Pick(matches[k].value)
                                     && forall j :: 0 <= j < k ==> matches[j].None?)
    decreases |matches|
  {
    if matches == [] then None
    else if matches[0].Some? then Some(Pick(matches[0].value))
    else
      var r := FirstLocation(matches[1..]);
      if r.Some? then
        var k :| 0 <= k < |matches[1..]| && matches[1..][k].Some? && r.value == Pick(matches[1..][k].value)
                 && forall j :: 0 <= j < k ==> matches[1..][j].None?;
        assert matches[k + 1] == matches[1..][k];
        r
      else r
  }

  /** `parseUserMessage`: every field starts null; the loop over the location
      patterns stops at the first match; the time range needs both groups;
      the date comes from the numeric pattern, else from today/tomorrow. */
  method ParseUserMessage(locationMatches: seq<Option<MatchArray>>, timeMatch: Option<(string, string)>,
                          numericDate: Option<string>, wordDate: Option<string>)
    returns (parsed: Parsed)
    ensures parsed.location == FirstLocation(locationMatches)
    ensures parsed.startTime.Some? <==> timeMatch.Some?
    ensures timeMatch.Some? ==> parsed.startTime == Some(timeMatch.value.0) && parsed.endTime == Some(timeMatch.value.1)
    ensures timeMatch.None? ==> parsed.endTime.None?
    ensures parsed.date == (if numericDate.Some? then numericDate else wordDate)
  {
    parsed := Parsed(None, None, None, None);
    var i := 0;
    while i < |locationMatches|
      invariant 0 <= i <= |locationMatches|
      invariant forall j :: 0 <= j < i ==> locationMatches[j].None?
      invariant parsed == Parsed(None, None, None, None)
    {
      if locationMatches[i].Some? {
        parsed := parsed.(location := Some(Pick(locationMatches[i].value)));
        break;
      }
      i := i + 1;
    }
    ghost var loc := FirstLocation(locationMatches);
    assert parsed.location.Some? ==> i < |locationMatches| && loc == Some(Pick(locationMatches[i].value));
    if timeMatch.Some? {
      parsed := parsed.(startTime := Some(timeMatch.value.0), endTime := Some(timeMatch.value.1));
    }
    var dateMatch := if numericDate.Some? then numericDate else wordDate;
    if dateMatch.Some? {
      parsed := parsed.(date := dateMatch);
    }
  }

  // ---------------------------------------------------------- formatting

  datatype Spot = Spot(name: string, address: string, amount: int, totalSlots: int, hasImage: bool)

  /** What `searchParkingSpaces` returns: a failure carries no data. */
  datatype SearchResults = SearchResults(success: bool, count: int, data: Option<seq<Spot>>)

  const NoResultsText :=
    "\U{274C} **No parking spaces found.**\n\n" +
    "Try phrases like:\n" +
    "\U{2022} *Parking in Electronic City*\n" +
    "\U{2022} *Find parking near Koramangala*\n" +
    "\U{2022} *Parking in Chennai*"

  const Footer := "\U{1F517} **You can tap a parking card above to book instantly!**"

  function Header(count: int): string {
    "\U{1F17F}\U{FE0F} **Found " + IntToString(count) + " parking area" + (if count > 1 then "s" else "") + ":**\n\n"
  }

  /** The card of the i-th result (numbered from 1). */
  function Card(i: int, spot: Spot): string {
    "**" + IntToString(i + 1) + ". " + spot.name + "**\n"
    + "\U{1F4CD} " + spot.address + "\n"
    + "\U{1F4B0} \U{20B9}" + IntToString(spot.amount) + " per hour\n"
    + "\U{1F697} Total Slots: " + IntToString(spot.totalSlots) + "\n"
    + "\U{1F5BC} Image: " + (if spot.hasImage then "Available" else "Not Provided") + "\n\n"
  }

  /** The cards of the first n spots. */
  function Cards(spots: seq<Spot>, n: nat): string
    requires n <= |spots|
  {
    if n == 0 then "" else Cards(spots, n - 1) + Card(n - 1, spots[n - 1])
  }

  lemma AppendAssoc(a: string, b: string, c: string)
    ensures (a + b) + c == a + (b + c)
  {
  }

  lemma AppendParts(a: string, b: string)
    ensures a <= a + b
    ensures (a + b)[|a|..] == b
  {
  }

  function More(count: int): string {
    "...and **" + IntToString(count - 3) + " more**.\n\n"
  }

  function Min(a: int, b: int): int { if a < b then a else b }

  /** The reply `formatParkingResults` builds. */
  function FormatSpec(results: SearchResults): string {
    if !results.success || results.data.None? || |results.data.value| == 0 then NoResultsText
    else
      var data := results.data.value;
      Header(results.count) + Cards(data, Min(3, |data|))
      + (if |data| > 3 then More(results.count) else "") + Footer
  }

  /** `formatParkingResults`: the header, then `forEach` over `slice(0, 3)`
      appending one card each, then the "more" line and the footer. */
  method FormatParkingResults(results: SearchResults) returns (msg: string)
    ensures msg == FormatSpec(results)
  {
    if !results.success || results.data.None? || |results.data.value| == 0 {
      return NoResultsText;
    }
    var data := results.data.value;
    msg := Header(results.count);
    var shown := if |data| < 3 then data else data[..3];
    var i := 0;
    while i < |shown|
      invariant 0 <= i <= |shown| == Min(3, |data|)
      invariant msg == Header(results.count) + Cards(data, i)
    {
      assert shown[i] == data[i];
      msg := msg + Card(i, shown[i]);
      AppendAssoc(Header(results.count), Cards(data, i), Card(i, data[i]));
      i := i + 1;
    }
    if |data| > 3 {
      msg := msg + More(results.count);
    }
    msg := msg + Footer;
  }

  /** The fixed no-results text exactly for a failure or an empty list. */
  lemma NoResultsExactly(results: SearchResults)
    ensures FormatSpec(results) == NoResultsText <==>
      !results.success || results.data.None? || |results.data.value| == 0
  {
    if results.success && results.data.Some? && |results.data.value| > 0 {
      var s := FormatSpec(results);
      assert s[0] == '\U{1F17F}';
      assert NoResultsText[0] == '\U{274C}';
    }
  }

  /** A non-empty result starts with the header and ends with the footer. */
  lemma FoundFramesReply(results: SearchResults)
    requires results.success && results.data.Some? && |results.data.value| > 0
    ensures Header(results.count) <= FormatSpec(results)
    ensures var s := FormatSpec(results); s[|s| - |Footer|..] == Footer
  {
    var data := results.data.value;
    var h := Header(results.count);
    var body := Cards(data, Min(3, |data|)) + (if |data| > 3 then More(results.count) else "");
    assert FormatSpec(results) == h + body + Footer;
    AppendAssoc(h, body, Footer);
    AppendParts(h, body + Footer);
    AppendParts(h + body, Footer);
  }

  lemma {:induction false} CardsAgree(a: seq<Spot>, b: seq<Spot>, n: nat)
    requires n <= |a| && n <= |b|
    requires forall i :: 0 <= i < n ==> a[i] == b[i]
    ensures Cards(a, n) == Cards(b, n)
  {
    if n > 0 {
      CardsAgree(a, b, n - 1);
    }
  }

  /** Results past the third are never listed: two result lists of more than
      three that agree on their first three give the same reply. */
  lemma OnlyFirstThreeListed(count: int, a: seq<Spot>, b: seq<Spot>)
    requires |a| > 3 && |b| > 3 && a[..3] == b[..3]
    ensures FormatSpec(SearchResults(true, count, Some(a))) == FormatSpec(SearchResults(true, count, Some(b)))
  {
    assert forall i :: 0 <= i < 3 ==> a[i] == a[..3][i] && b[i] == b[..3][i];
    CardsAgree(a, b, 3);
  }

  /** Up to three results are all listed, and no "more" line is added. */
  lemma FewResultsAllListed(count: int, data: seq<Spot>)
    requires 0 < |data| <= 3
    ensures FormatSpec(SearchResults(true, count, Some(data))) == Header(count) + Cards(data, |data|) + Footer
  {
    assert Header(count) + Cards(data, |data|) + "" == Header(count) + Cards(data, |data|);
  }

  /** The header is plural exactly when the count exceeds one. */
  lemma HeaderPlural(count: int)
    ensures Header(count) == "\U{1F17F}\U{FE0F} **Found " + IntToString(count) + " parking areas:**\n\n" <==> count > 1
  {
    var stem := "\U{1F17F}\U{FE0F} **Found " + IntToString(count) + " parking area";
    if count <= 1 {
      assert |Header(count)| == |stem| + 5;
    }
  }

  // ---------------------------------------------------------- dispatch

  const GreetingText :=
    "\U{1F44B} **Hello! I'm Parky, your parking assistant!**\n\n" +
    "Tell me where you need a parking spot.\n\n" +
    "**Try:**\n" +
    "\U{2022} *Find parking in Electronic City*\n" +
    "\U{2022} *Parking near Koramangala*\n"

  const AskLocationText :=
    "\U{1F50D} Tell me where you need parking.\n\n" +
    "**Example:**\n\U{2022} *Find parking in Chennai*\n\U{2022} *Parking near Airport*"

  const ConfirmText :=
    "\U{1F697} **Great!**\n\n" +
    "Select a parking card from above \U{2192} choose time \U{2192} pay \U{2192} get your QR ticket instantly!"

  const HelpText :=
    "\U{1F916} **I can help you find and book parking!**\n\n" +
    "Try:\n" +
    "\U{2022} *Find parking in Delhi*\n" +
    "\U{2022} *Parking near Bus Stand*\n" +
    "\U{2022} *Show parking options in Chennai*"

  const FallbackText :=
    "\U{1F914} I didn't understand that.\n\n" +
    "Tell me where you need parking.\n\n" +
    "**Example:** *Parking in Koramangala*"

  /** `handleUserMessage`. The matches are those of the original message;
      `search` stands for `searchParkingSpaces`. `searched` is the location a
      search was made for, if any. */
  method HandleUserMessage(message: string, locationMatches: seq<Option<MatchArray>>,
                           timeMatch: Option<(string, string)>, numericDate: Option<string>,
                           wordDate: Option<string>, search: string -> SearchResults)
    returns (reply: string, searched: Option<string>)
    ensures searched.Some? <==>
      IntentOf(ToLower(message)) == ParkingRequest && Truthy(FirstLocation(locationMatches))
    ensures searched.Some? ==>
      searched == FirstLocation(locationMatches) && reply == FormatSpec(search(searched.value))
    ensures IntentOf(ToLower(message)) == Greet ==> reply == GreetingText
    ensures IntentOf(ToLower(message)) == ParkingRequest && !Truthy(FirstLocation(locationMatches)) ==>
      reply == AskLocationText
    ensures IntentOf(ToLower(message)) == Help ==> reply == HelpText
    ensures IntentOf(ToLower(message)) == NotUnderstood ==> reply == FallbackText
  {
    var clean := ToLower(message);
    searched := None;
    if IsGreeting(clean) {
      return GreetingText, None;
    }
    if IsParkingQuery(clean) {
      var parsed := ParseUserMessage(locationMatches, timeMatch, numericDate, wordDate);
      if !Truthy(parsed.location) {
        return AskLocationText, None;
      }
      searched := parsed.location;
      reply := FormatParkingResults(search(parsed.location.value));
      return;
    }
    if Contains(clean, "book") && Contains(clean, "yes") {
      return ConfirmText, None;
    }
    if Contains(clean, "help") {
      return HelpText, None;
    }
    reply := FallbackText;
  }
}
