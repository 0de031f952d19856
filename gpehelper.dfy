/**
 * The greeting composer of the GPE Helper userscript: once the reply editor
 * of a support-forum thread has appeared, it overwrites the editor's text
 * with a greeting addressed to the thread's author, opened with the time of
 * day.
 */
module GpeHelper {
  import opened JsString

  /** The three words `TimeOfDay` can produce. */
  const Words: set<string> := {"morning", "afternoon", "evening"}

  /**
   * Classifies the local hour, as `Date.getHours` reports it (0 to 23), into
   * a part of the day: before noon, from noon to six, from six on.
   */
  function TimeOfDay(hour: int): (r: string)
    requires 0 <= hour < 24
    ensures r in Words
    ensures r == "morning" <==> hour < 12
    ensures r == "afternoon" <==> 12 <= hour < 18
    ensures r == "evening" <==> 18 <= hour
  {
    if hour < 12 then "morning"
    else if hour < 18 then "afternoon"
    else "evening"
  }

  /**
   * The author's name as the greeting uses it: the trimmed text of the user
   * element when the page has one, the empty string when it has none.
   */
  function Username(present: bool, rawText: string): (r: string)
    ensures !present ==> r == ""
    ensures present ==> IsTrimOf(rawText, r)
    ensures Trimmed(r) && Trim(r) == r
  {
    if present then
      TrimIdempotent(rawText);
      Trim(rawText)
    else
      ""
  }

  /** Everything of the reply that follows the comma after the name. */
  const Body: string :=
    "\n\n[Response here]\n\nIf there’s anything else I can assist you with, please let me know!\n\n"
    + "I’m not affiliated with either Waze or Google; I’m a volunteer product expert providing answers about Google Maps and Waze."

  /** The opening of the reply, up to and including the space before the name. */
  function Salutation(tod: string): (r: string) {
    "Good " + tod + " "
  }

  /**
   * The whole reply: the salutation, the name, a comma and the fixed body. It
   * reads, in order, the salutation, the name and then ',' followed by the body.
   */
  function Greeting(tod: string, username: string): (r: string)
    ensures |r| == |Salutation(tod)| + |username| + 1 + |Body|
    ensures r[..|Salutation(tod)|] == Salutation(tod)
    ensures r[|Salutation(tod)|..|Salutation(tod)| + |username|] == username
    ensures r[|Salutation(tod)| + |username|..] == "," + Body
  {
    ThreeParts(Salutation(tod), username, "," + Body);
    Salutation(tod) + username + ("," + Body)
  }

  /** Where each part of a three-part concatenation lies in it. */
  lemma ThreeParts(a: string, b: string, c: string)
    ensures |a + b + c| == |a| + |b| + |c|
    ensures (a + b + c)[..|a|] == a
    ensures (a + b + c)[|a|..|a| + |b|] == b
    ensures (a + b + c)[|a| + |b|..] == c
  {
    var s := a + b + c;
    assert forall j :: 0 <= j < |a| ==> s[j] == a[j];
    assert forall j :: 0 <= j < |b| ==> s[|a| + j] == b[j];
    assert forall j :: 0 <= j < |c| ==> s[|a| + |b| + j] == c[j];
  }

  /** With no name, the salutation's space is kept right before the comma. */
  lemma GreetingWithoutName(tod: string)
    ensures Greeting(tod, "")[..|tod| + 7] == "Good " + tod + " ,"
  {
    var g := Greeting(tod, "");
    assert g[..|tod| + 7] == g[..|tod| + 6] + [g[|tod| + 6]];
  }

  /**
   * The reply determines both the time-of-day word and the name it was
   * composed from.
   */
  lemma GreetingInjective(tod1: string, user1: string, tod2: string, user2: string)
    requires tod1 in Words && tod2 in Words
    requires Greeting(tod1, user1) == Greeting(tod2, user2)
    ensures tod1 == tod2 && user1 == user2
  {
    var g := Greeting(tod1, user1);
    assert g[..|Salutation(tod1)|][5] == tod1[0];
    assert g[..|Salutation(tod2)|][5] == tod2[0];
  }

  /**
   * Whatever the name, the reply opens with "Good morning ", "Good afternoon "
   * or "Good evening ", each for exactly the hours `TimeOfDay` gives that word.
   */
  lemma ReplyOpening(hour: int, username: string)
    requires 0 <= hour < 24
    ensures var g := Greeting(TimeOfDay(hour), username);
      |g| >= 15 &&
      (g[..13] == "Good morning " <==> hour < 12) &&
      (g[..15] == "Good afternoon " <==> 12 <= hour < 18) &&
      (g[..13] == "Good evening " <==> 18 <= hour)
  {
    var tod := TimeOfDay(hour);
    OpeningLetter(tod, username);
    if tod == "afternoon" {
      assert Greeting(tod, username)[..15] == Salutation(tod);
    } else {
      assert Greeting(tod, username)[..13] == Salutation(tod);
    }
  }

  /** The first character after "Good " is the first letter of the time-of-day word. */
  lemma OpeningLetter(tod: string, username: string)
    requires tod in Words
    ensures var g := Greeting(tod, username);
      |g| >= 15 && g[5] == tod[0] && g[..13][5] == tod[0] && g[..15][5] == tod[0]
  {
    var g := Greeting(tod, username);
    assert g[..|Salutation(tod)|][5] == g[5];
  }

  /** The editor element of the page; its text is what `innerText` shows and sets. */
  class Editor {
    var innerText: string
  }

  /**
   * `prefillResponse`: replaces the whole text of `editor` by the reply for
   * the given hour and user element. The new text depends on `hour`,
   * `userPresent` and `userText` alone, never on what the editor held.
   */
  method PrefillResponse(editor: Editor, hour: int, userPresent: bool, userText: string)
    requires 0 <= hour < 24
    modifies editor
    ensures editor.innerText == Greeting(TimeOfDay(hour), Username(userPresent, userText))
  {
    var timeOfDay := TimeOfDay(hour);
    var username := Username(userPresent, userText);
    editor.innerText := Greeting(timeOfDay, username);
  }
}
