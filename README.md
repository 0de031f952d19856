# GPE Helper greeting composer

GPE Helper is a userscript for the Google support forums (`support.google.com/*/thread/*`).
When a thread page loads it waits for the reply editor to appear and then pre-fills it with a
greeting to the thread's author. This project models that greeting composer:

- `GpeHelper.TimeOfDay` classifies the local hour into "morning", "afternoon" or "evening";
- `GpeHelper.Username` takes the trimmed text of the author's name element, or the empty string
  when the page has no such element;
- `GpeHelper.Greeting` puts the time-of-day word and the name into the fixed reply text, including
  the typographic apostrophes (U+2019) and the blank-line separators of the userscript's reply text;
- `GpeHelper.PrefillResponse` overwrites the whole text of the `Editor` object with that reply;
- module `JsString` models JavaScript's `String.prototype.trim`, with a reference definition
  (`IsTrimOf`) that the recursive implementation is proved to meet, and to be the only function meeting.

The hour (from `new Date().getHours()`, 0 to 23) and the author element (present or absent, and its
text) are parameters; the editor is a class whose `innerText` field the prefill assigns.

Files: `jsstring.dfy` (module `JsString`), `gpehelper.dfy` (module `GpeHelper`).

## Model

| member | source | states |
|---|---|---|
| `GpeHelper.TimeOfDay` | gpe-helper.user.js:45-50 | for every hour 0..23 the word is one of the three; "morning" exactly for hours below 12, "afternoon" exactly for 12 to 17, "evening" exactly for 18 to 23, so the three ranges partition the day |
| `GpeHelper.Username` | gpe-helper.user.js:62 | absent element gives ""; a present element gives a trim of its text in the sense of `IsTrimOf`; the result never starts or ends with whitespace and trimming it again leaves it unchanged |
| `GpeHelper.Greeting` | gpe-helper.user.js:68 | the reply is "Good " + word + " ", then the name, then "," and the fixed body, with exactly that length |
| `GpeHelper.GreetingWithoutName` | gpe-helper.user.js:62-68 | with an empty name the reply begins "Good <word> ," keeping the space before the comma |
| `GpeHelper.GreetingInjective` | gpe-helper.user.js:68 | two replies composed from time-of-day words are equal only when their words and their names are equal |
| `GpeHelper.ReplyOpening` | gpe-helper.user.js:45-68 | whatever the name, the reply starts "Good morning " exactly when the hour is below 12, "Good afternoon " exactly for 12 to 17, "Good evening " exactly for 18 and later |
| `GpeHelper.PrefillResponse` | gpe-helper.user.js:57-69 | the editor's new text is the reply for the hour and the user element, whatever the editor held before |
| `JsString.TrimStart` | gpe-helper.user.js:62 | the result is a suffix of the input, everything dropped is whitespace, and the result is empty or starts with a non-whitespace character |
| `JsString.TrimEnd` | gpe-helper.user.js:62 | the result is a prefix of the input, everything dropped is whitespace, and the result is empty or ends with a non-whitespace character |
| `JsString.Trim` | gpe-helper.user.js:62 | the result is the input with a whitespace-only prefix and suffix cut away, and neither starts nor ends with whitespace |
| `JsString.TrimUnique` | gpe-helper.user.js:62 | any string that is a trim of the input in that sense equals `Trim` of the input |
| `JsString.TrimOfTrimmed` | gpe-helper.user.js:62 | a string with no whitespace at either end is unchanged by trim |
| `JsString.TrimIdempotent` | gpe-helper.user.js:62 | trimming a trimmed string changes nothing |
| `JsString.TrimPadded` | gpe-helper.user.js:62 | whitespace added before and after the name element's text does not change the name |

## Left out

- `waitForElm` (gpe-helper.user.js:16-43): asynchronous observation of the page through a
  MutationObserver and a Promise, with its fallback from `doc.body` to `doc`; it has no sequential
  logic to state.
- `init` (gpe-helper.user.js:52-55, 71): only orders the wait and the prefill.
  `PrefillResponse` therefore takes an editor that exists; the source would throw a TypeError
  when `getElementsByClassName(...)[0]` is undefined, which cannot happen after the wait.
- The clock: `new Date().getHours()` becomes the `hour` parameter, limited to 0..23.
- DOM lookups (`querySelector`, `getElementsByClassName`) and the host page's `innerText`
  rendering: the user element is modelled as a presence flag and its text, and setting
  `innerText` as assigning a string (how the page turns newlines into line breaks is not modelled).
- The userscript metadata header (gpe-helper.user.js:1-11): packaging only.
- `JsString.IsWhitespace`: the set is ECMAScript's WhiteSpace and LineTerminator characters with
  the Unicode Zs category as of Unicode 15; Dafny characters are code points, not UTF-16 units,
  which makes no difference here because every character of the set lies in the Basic Multilingual Plane;
  unpaired surrogates, which a Dafny string cannot hold, are outside the model.
- Nothing else: gpe-helper.user.js does nothing beyond waiting for the editor and pre-filling the greeting.
