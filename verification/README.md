# Portfolio page renderers, modelled in Dafny

This project models the string layer of a static portfolio site. It covers two files:

- `js/utils.js`: the helpers `escapeHTML`, `fmtDate`, `b64` and `assembleEmail`.
- `js/app.js`: the renderers that turn the site's JSON data into HTML strings for
  - the hero;
  - experience;
  - projects;
  - skills;
  - certifications;
  - contact buttons.

Every renderer is a pure function from the JSON records to a string. JSON fields are `Option` values. `None` stands for a missing key, `null` and `undefined` together only where the page treats them alike: in a truth test, in `||`, in `escapeHTML` and in `Array.isArray`. The two fields that the page turns into text with `String(...)` are a `JsText.Field` with three cases, because `String(null)` is "null" and `String(undefined)` is "undefined". They are the base64 halves of the email address and a contact button's `href_key`. JavaScript truthiness of a string is "present and non-empty".

**What each renderer is meant to produce.** Each renderer gets a partner: a token document. A document is a sequence of start tags with attributes, end tags and text characters. Two functions connect documents and markup:

- `Markup.Serialize` writes a document the way the page writes markup, escaping text and attribute values.
- `Markup.Tokenize` reads markup the way an HTML parser reads this subset.

For each renderer, the project proves:

- the renderer's output is exactly its document written out, and that document is well formed;
- reading the output back gives the document itself (`Tokenize(Render(x)) == Doc(x)`).

So whatever the escaped fields hold, none of them can open or close an element or leave an attribute. The texts the visitor sees are the data's texts, unchanged. There is one exception, the assembled email address. It goes into a `mailto:` `href` without escaping (`js/app.js:29` and `js/app.js:129`). An address holding `"` can leave that attribute. The theorems about the hero and about mail buttons therefore assume an address without the five special characters.

**Escaping and reading back.** `escapeHTML` is modelled character by character. Two round trips are proved against an unescaping reader. The first holds for every string. The second holds for every safe string (no raw special characters, and each `&` starting an entity).

**Dates.** `fmtDate` is modelled up to the `Date` object. The token is split on `-`, and each part goes through `parseInt` with the `|| 1970` and `|| 1` fallbacks. The locale-dependent month label is a parameter.

**The email address.** `atob` is modelled as the forgiving-base64 decode of the WHATWG Infra standard, which the HTML standard's `atob` calls. Its partner is the padded encoder of section 4 of RFC 4648. `b64` swallows every failure into `""`.

**How literals are written.** The renderers' string literals are written split at tag and attribute boundaries (`"<a class=\"btn\">" + "<span ...>"`). Concatenation makes this the same text the source builds. The split keeps the proofs about literal spellings small.

Modules:

| module | file | what it holds |
|---|---|---|
| `Wrappers` | wrappers.dfy | `Option` |
| `JsText` | js_text.dfy | truthiness, `String(...)` of a text, `undefined` or `null`, `trim`, `split`, `parseInt` |
| `HtmlEscape` | escape.dfy | `escapeHTML`, the unescaping reader, safety |
| `Markup` | markup.dfy | tokens, `Serialize`, `Tokenize` and their round trip |
| `Tags` | tags.dfy | how start tags with fixed and data-dependent attributes are written |
| `DateToken` | date_token.dfy | the parsing part of `fmtDate` |
| `Base64` | base64.dfy | `atob` and its encoding partner |
| `Email` | email.dfy | `b64` and `assembleEmail` |
| `Content` | content.dfy | the JSON records |
| `Page` | page.dfy | `.map(...).join('')`, elements, chips, lists, icons |
| `Hero`, `Experience`, `Projects`, `Skills`, `Certifications`, `ContactButtons` | hero.dfy, experience.dfy, projects.dfy, skills.dfy, certifications.dfy, contact.dfy | the renderers |

Three behaviours of the code that a reader might not expect, which the model keeps:

- `assembleEmail` returns `b64(local) + "@" + b64(domain)` for any present object. It does not return `""` when a half is missing or fails to decode. The result is `"@"` when neither half decodes.
- `fmtDate` does not special-case the word `"present"`. The word has no digits, so it becomes January 1970. Only an empty or absent token gives `"Present"`.
- The hero always writes the copy button and the mail link, also when the address is empty (`js/app.js:28-29`). A contact entry of type `copy-email` or `mailto` is likewise written whatever the address holds (`js/app.js:126-129`). An empty address gives the link `href="mailto:"`.

## Model

| member | source | states |
|---|---|---|
| HtmlEscape.EscapeChar | js/utils.js:10 | `& < > " '` each become an entity of 4 to 6 characters starting with `&`; every other character is kept as it is |
| HtmlEscape.EscapeValue | js/utils.js:9 | `null` and `undefined` escape to the empty string |
| HtmlEscape.EscapeIsSafe | js/utils.js:8-11 | for every input, the output has no raw `< > " '` and every `&` in it begins one of the five entities |
| HtmlEscape.UnescapeEscape | js/utils.js:8-11 | reading the entities back recovers any input exactly |
| HtmlEscape.EscapeUnescape | js/utils.js:8-11 | the other direction: escaping the reading of a safe text gives that text back |
| HtmlEscape.EscapeAppend | js/utils.js:10 | the replacement is per character: escaping a concatenation concatenates the escapes |
| HtmlEscape.EscapeLength | js/utils.js:10 | escaping never shortens a text |
| HtmlEscape.EscapePlain | js/utils.js:10 | a text is left unchanged if and only if it holds none of the five special characters |
| JsText.TrimSpec | js/app.js:105 | `trim()` is empty exactly when the URL is all white space; otherwise it starts and ends with non-space characters |
| JsText.JoinSplit | js/utils.js:16 | joining the parts of `split('-')` with `-` gives the token back |
| JsText.SplitJoin | js/utils.js:16 | splitting a join of separator-free parts gives the parts back |
| JsText.SplitNoSep | js/utils.js:16 | a token without `-` splits into itself alone |
| JsText.ParseIntNaN | js/utils.js:17-18 | `parseInt(s, 10)` is NaN exactly when no digit follows the white space and optional sign |
| JsText.ParseIntDigits | js/utils.js:17-18 | a numeral whose value is below 2^53, followed by a non-digit, parses to the numeral's value |
| JsText.ParseIntDecimal | js/utils.js:17-18 | the decimal spelling of a number below 2^53, followed by a non-digit, parses back to the number |
| DateToken.ParseDate | js/utils.js:15 | the result is "Present" exactly when the token is absent or empty |
| DateToken.FormatToken | js/utils.js:14-21 | the `YYYY-MM` token of a year below 2^53 and a month 1 to 12 shows the month label of that year and the month's 0-based index |
| DateToken.ZeroYearIs1970 | js/utils.js:16-18 | a year part of zeros only falls back to 1970, because `parseInt` gives 0 and 0 is falsy; the month is kept |
| DateToken.TokenRoundTrip | js/utils.js:16-18 | the `YYYY-MM` token of a year from 1 to below 2^53 and a month 1 to 12 parses back to that year and the month's 0-based index |
| DateToken.ParseDateOfNumbers | js/utils.js:16-18 | parts whose numbers are non-zero give exactly those numbers, the month shifted by one |
| DateToken.YearOnlyIsJanuary | js/utils.js:18 | a token without `-` falls back to January |
| DateToken.UndefinedIsNaN | js/utils.js:18 | `parseInt(undefined, 10)` of a missing month part is NaN |
| DateToken.LetterIsNaN | js/utils.js:17 | a part starting with a letter is NaN |
| DateToken.WordIsJanuary1970 | js/utils.js:15-18 | a non-empty word without `-` starting with a letter denotes January 1970 |
| DateToken.PresentWordIsJanuary1970 | js/utils.js:15-18 | the word "present" denotes January 1970, not the open end of a range |
| Base64.Atob | js/utils.js:24 | a decoded string is never longer than its input |
| Base64.AtobIgnoresWhitespace | js/utils.js:24 | ASCII white space anywhere in the input does not change the result |
| Base64.AtobBytes | js/utils.js:24 | whatever `atob` returns is a binary string (every code unit below 256) |
| Base64.DecodeEncodeGroups | js/utils.js:24 | decoding undoes the encoder's grouping of bytes into sextets, group by group |
| Base64.AtobEncode | js/utils.js:24 | `atob` of the padded encoding of any binary string is that string |
| Email.B64Bytes | js/utils.js:24 | `b64` always yields a binary string, and never an exception |
| Email.B64Encode | js/utils.js:24 | `b64` of an encoded half is that half |
| Email.B64Absent | js/utils.js:24-25 | a missing half reads as the text "undefined", which does not decode, so it gives `""` |
| Email.B64Null | js/utils.js:24-25 | a `null` half reads as the text "null", which is valid base64: it gives the three characters 0x9E, 0xE9 and `e`, not `""` |
| Email.AssembleEmail | js/utils.js:25 | the address is empty exactly when the email object is absent |
| Email.UndecodableHalves | js/utils.js:24-25 | when neither half decodes, the address is the lone `@` |
| Email.AssembleEncoded | js/utils.js:25 | halves stored as base64 assemble to `local@domain` |
| Page.IconIs | js/app.js:127-132 | an icon is the empty hidden `span` with classes `icon` and its escaped name |
| Page.TagsAre | js/app.js:61 | the tag box is `div.stack` holding one chip per tag when the tags are an array, and nothing otherwise; well formed |
| Page.ListIs | js/app.js:60 | a list is one `li` per item, in order, with the items' texts |
| Experience.HeadingIs | js/app.js:57 | the heading is the role, then ` - ` and the company when there is one, as one `h3` text |
| Experience.DatesIs | js/app.js:58 | with plain month labels, the dates line is one `p.muted` text of start, dash, end, dot and location |
| Experience.SummaryIs | js/app.js:59 | the summary paragraph is the summary's text |
| Experience.HighlightsIs | js/app.js:60 | the highlights list is its document and well formed |
| Experience.FormatDatePlain | js/utils.js:14-21 | with plain month labels, every `fmtDate` result needs no escaping |
| Experience.JobIs | js/app.js:55-63 | a job's card is its document: `article.card` holding heading, dates, summary, highlights and tags, in order |
| Experience.ExperienceIs | js/app.js:52-65 | the section is the jobs' cards in list order, well formed |
| Experience.ExperienceTokens | js/app.js:52-65 | reading the section back gives one card per job, with the data's texts as they are |
| Experience.OptionalPieces | js/app.js:59-60 | the summary is written exactly when it is truthy; the highlights exactly when they are an array |
| Projects.NameIs | js/app.js:72 | the heading is the project's name as one `h3` text |
| Projects.BlurbIs | js/app.js:73 | the blurb paragraph is its document |
| Projects.ProjectIs | js/app.js:70-76 | a project's card is `article.card` holding name, blurb and tags, in order |
| Projects.ProjectsIs | js/app.js:67-78 | the section is the cards in list order, well formed |
| Projects.ProjectsTokens | js/app.js:67-78 | reading the section back gives one card per project, with the data's texts |
| Projects.BlurbShown | js/app.js:73 | the blurb is written exactly when it is truthy |
| Skills.GroupIs | js/app.js:82-90 | a group is `div.card` holding its name as `h3` and one `li` per skill |
| Skills.SkillsIs | js/app.js:80-92 | the section is the groups in key order, well formed |
| Skills.SkillsTokens | js/app.js:80-92 | reading the section back gives one card per group, with the data's texts |
| Skills.MissingSkills | js/app.js:83-87 | a group without a list still gets an empty `ul` |
| Certifications.DateShown | js/app.js:100 | the date is shown exactly when it is truthy |
| Certifications.InnerIs | js/app.js:101-103 | the inner part is the label span, then the meta span when there is a date |
| Certifications.AriaIs | js/app.js:106-108 | the accessible label is the caption, followed by ` (date)` when there is a date |
| Certifications.LinkCondition | js/app.js:105 | a chip links exactly when the URL has a non-space character |
| Certifications.LinkChipIs | js/app.js:106 | a linking chip is `a.chip.chip-cert` with the escaped URL, a new tab and the accessible label |
| Certifications.SpanChipIs | js/app.js:108 | a chip without a link is `span.chip.chip-cert` with the accessible label |
| Certifications.CertIs | js/app.js:98-109 | every chip is its document and well formed |
| Certifications.CertTokens | js/app.js:98-109 | reading a chip back gives its document |
| Certifications.ChipShape | js/app.js:105-108 | a chip is one element, `a` exactly when the URL has a non-space character and `span` otherwise; aria-label is its last attribute |
| Certifications.DateMeta | js/app.js:100-108 | the meta span and the parenthesised date appear exactly when the date is truthy |
| Certifications.CertsIs | js/app.js:111 | the section is the chips in list order, well formed |
| Certifications.CertsTokens | js/app.js:94-112 | reading the section back gives one chip per entry, with the data's texts |
| ContactButtons.CopyOpen | js/app.js:127 | the copy button's start tag is `button.btn.js-copy-email` |
| ContactButtons.MailtoOpen | js/app.js:129 | with a plain address, the mail link's start tag has `href="mailto:"` followed by the address |
| ContactButtons.LinkOpen | js/app.js:132 | a link button's start tag holds the escaped target and opens a new tab |
| ContactButtons.HrefFallback | js/app.js:131 | the target is `#` exactly when the key's text names no entry of `links`, an empty one or `#` itself; a missing key looks up "undefined" and a `null` key looks up "null" |
| ContactButtons.ButtonIs | js/app.js:126-134 | when the button is not a mail link or the address is plain, each button is its document: icon, then a space and the caption, with the kind's defaults |
| ContactButtons.ButtonWellFormed | js/app.js:126-134 | every button's document is well formed |
| ContactButtons.UnknownKind | js/app.js:125-135 | an entry is written as nothing exactly when its type is none of the three kinds |
| ContactButtons.ContactIs | js/app.js:120-137 | when no button is a mail link or the address is plain, the section is the buttons in list order, well formed |
| ContactButtons.ContactTokens | js/app.js:120-137 | when no button is a mail link or the address is plain, reading the section back gives one element per known button, with the data's captions, icons and targets |
| Hero.TitleIs | js/app.js:33 | the heading is the headline as one `h1` text |
| Hero.TaglineIs | js/app.js:34 | the tagline is `p.tagline.muted` holding the subtitle |
| Hero.LeadIs | js/app.js:35 | the lead is `p.lead.hero-lead` holding the summary |
| Hero.CvOpen | js/app.js:27 | the CV link's start tag holds the escaped path and opens a new tab |
| Hero.CvIs | js/app.js:27 | the CV link is its document: mail icon and " Download CV" |
| Hero.CopyIs | js/app.js:28 | the copy button is `button#copyEmail` with the mail icon and " Copy Email" |
| Hero.MailOpen | js/app.js:29 | with a plain address, the mail link's start tag is `a#mailLink` with `href="mailto:"` followed by the address |
| Hero.MailIs | js/app.js:29 | with a plain address, the mail link is its document |
| Hero.RowIs | js/app.js:26-30 | with a plain address, the button row is `div.row.mt-20` holding the three buttons in order |
| Hero.ChipsShown | js/app.js:24 | the joined chips are non-empty exactly when there is at least one chip |
| Hero.ChipBoxIs | js/app.js:37 | the chip box is its document and well formed |
| Hero.HeroIs | js/app.js:21-37 | with a plain address, the hero is its document and well formed |
| Hero.HeroTokens | js/app.js:21-37 | reading the hero back gives heading, tagline when there is one, lead, button row and chip box when there are chips |
| Hero.OptionalPieces | js/app.js:34-37 | the tagline is written exactly when the subtitle is truthy; the chip box exactly when there are chips |

## Left out

- The theme toggle, the clipboard handlers, `setTimeout`, `loadJSON`, `initReveal`, `setYearNow`, `$` and `$$`. They are page behaviour, I/O and timers, not string logic.
- The DOM itself. Looking up the target element and assigning `innerHTML` are left out. Each renderer is modelled as the string it assigns.
- The `new Date(y, m, 1).toLocaleString(...)` step of `fmtDate`. It depends on the locale. The model passes a month-label function as a parameter, given the parsed year and 0-based month. This also leaves out `Date`'s mapping of years 0–99 to 1900–1999 and its roll-over of months outside 0–11.
- Lines 114-118 of `js/app.js`. They are a stray copy of a second `renderCertifications` body after the function has closed. As written they are a syntax error (a stray `}`), and they call the undefined `chipHTML`. The model treats them as absent and models the `certChip` version only.
- JSON values that are not strings or arrays. A number passed to `escapeHTML` goes through `String(...)`, and a truthy non-array `chips` or skill list makes `.map` throw. Text fields are strings or absent, and list fields are arrays or absent.
- Property lookups that reach `Object.prototype` (a `href_key` such as `toString`). `links` is a finite map.
- The order of `Object.keys`. Skill groups are given as a sequence already in key order.
- Hero.HeroIs: proved only for addresses with none of the five special characters, because the address is put into `href` unescaped.
- Hero.HeroTokens: same assumption about the address as Hero.HeroIs.
- Hero.MailOpen: same assumption about the address as Hero.HeroIs.
- Hero.MailIs: same assumption about the address as Hero.HeroIs.
- Hero.RowIs: same assumption about the address as Hero.HeroIs, because the row holds the mail link.
- ContactButtons.ContactIs: proved only when no button is a mail link or the address is plain, because a mail link puts the address into `href` unescaped.
- ContactButtons.ContactTokens: same assumption about mail links as ContactButtons.ContactIs.
- ContactButtons.ButtonIs: proved for a mail link only with a plain address, for the same reason as ContactButtons.ContactIs.
- ContactButtons.MailtoOpen: same assumption about the address as ContactButtons.ContactIs.
- Experience.DatesIs: proved only for month labels without special characters, because `fmtDate`'s result goes into the markup unescaped.
- Experience.JobIs: same assumption about month labels as Experience.DatesIs.
- Experience.ExperienceIs: same assumption about month labels as Experience.DatesIs.
- Experience.ExperienceTokens: same assumption about month labels as Experience.DatesIs.
- Experience.FormatDatePlain: same assumption about month labels as Experience.DatesIs.
- JsText.ParseInt: returns the exact integer a numeral spells. JavaScript's `parseInt` returns a double, which is rounded above 2^53 and is `Infinity` for numerals of 309 or more digits.
- JsText.ParseIntDigits: stated only for numerals below 2^53, where the double is exact.
- JsText.ParseIntDecimal: stated only for numbers below 2^53, for the same reason as JsText.ParseIntDigits.
- DateToken.ParseDate: the parsed year is exact at any size, while the page's year is a double as JsText.ParseInt describes.
- DateToken.TokenRoundTrip: stated only for years below 2^53, for the same reason as JsText.ParseIntDigits.
- DateToken.FormatToken: stated only for years below 2^53, for the same reason as JsText.ParseIntDigits.
