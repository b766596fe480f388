# Lightyear release versioning and the Redux example's data flow

This project models two pieces of the Lightyear fork of React DOM's server
renderer repository and proves properties of them in Dafny:

- **Release versioning** (`scripts/lightyear-release/index.js`): how the
  release script reads the package version `major.minor.patch[-label.N]`
  into four numbers (`parseVersion`), bumps one of them and zeroes the
  later ones (`calculateNextVersion`), writes the result back as text, and
  which arguments it hands to `npm publish`.
- **The Redux example's pages** (`examples/redux/src/app`): the two reducers
  (`articleReducer`, `articleListReducer`) and the decision each page makes
  from the store: throw a fetch (suspend), show an error view, or show
  content.

Files:

- `js.dfy` (module `Js`): the JavaScript semantics the code relies on:
  `String.prototype.split`, unary `+` on text, numbers in template literals,
  `NaN`, truthiness, `undefined` as `Option`.
- `release.dfy` (module `Release`): versions, bumping, formatting, publish
  arguments.
- `actions.dfy` (module `Actions`): the actions both reducers receive.
- `article.dfy` (module `ArticlePage`), `home.dfy` (module `HomePage`): the
  reducers and the page decisions.

A version is a sequence of four `JsNumber`s, where a `JsNumber` is a
non-negative integer or `NaN`, because `+"x"` and `+undefined` are `NaN` in
the source and `NaN + 1` stays `NaN`. `calculateNextVersion` updates an array
in place and zeroes the later positions in a `for` loop. It is modelled as
`Release.CalculateNextVersion`: a method over an `array` with that loop. It
is proved equal to `Format(Bump(ParseVersion(current), position))`, and the
lemmas state what that value is.

## Model

| member | source | states |
|---|---|---|
| `Js.Split` | scripts/lightyear-release/index.js:47-50 | `split` on one character gives at least one part and no part holds the separator |
| `Js.JoinSplit` | scripts/lightyear-release/index.js:47-50 | joining the parts of a split with the separator gives back the text |
| `Js.SplitWithoutSeparator` | scripts/lightyear-release/index.js:47-48 | text without the separator splits into itself alone |
| `Js.SplitAtFirstSeparator` | scripts/lightyear-release/index.js:47-50 | the first separator ends the first part and the rest splits on its own |
| `Js.ToNumberOfPaddedDecimal` | scripts/lightyear-release/index.js:51 | unary `+` reads any number of '0's followed by the decimal text of n as n (`+"007"` is 7), and text of '0's only, the empty text included, as 0 |
| `Js.ToNumberReadsDecimal` | scripts/lightyear-release/index.js:51 | every digit-only text is either '0's only, reading as 0, or '0's followed by the decimal text of what `+` reads; text with any other character reads as `NaN` |
| `Js.DecimalText` | scripts/lightyear-release/index.js:70-72 | a number's text is non-empty, digit-only, without a leading zero, and has the number as its value |
| `Js.ToText` | scripts/lightyear-release/index.js:70-72 | a number's text is non-empty and has neither a '-' nor a '.' |
| `Js.NumberTextRoundTrip` | scripts/lightyear-release/index.js:51 | `+` applied to a number's text gives back the number, `NaN` included |
| `Js.Inc` | scripts/lightyear-release/index.js:64 | `+= 1` adds one to a number, which is then truthy, and keeps `NaN` as `NaN` |
| `Release.Position` | scripts/lightyear-release/index.js:55-63 | the bumped position is within 0..3 and is 3 exactly for a canary bump |
| `Release.ParseMainOfOneField` | scripts/lightyear-release/index.js:50-51 | a main part with one field reads as `[x, NaN, NaN]`: the missing fields are `undefined` |
| `Release.ParseMainOfTwoFields` | scripts/lightyear-release/index.js:50-51 | `"x.y"` reads as `[x, y, NaN]`: the missing patch field is `undefined` |
| `Release.ParseMainIgnoresExtraFields` | scripts/lightyear-release/index.js:50-51 | fields after the third are ignored |
| `Release.ParseMainOfFields` | scripts/lightyear-release/index.js:50-51 | `"x.y.z"` reads as the numbers of x, y and z |
| `Release.ParseWithoutSuffix` | scripts/lightyear-release/index.js:47-49 | a version text without '-' has canary number 0 |
| `Release.ParseWithSuffix` | scripts/lightyear-release/index.js:47-51 | with one '-', the text before it gives major, minor and patch and the text after it gives the canary number |
| `Release.ParseCanaryOfLabel` | scripts/lightyear-release/index.js:48-49 | the canary field `"label.n"` reads as n; the label is not checked |
| `Release.ParsePlainVersion` | scripts/lightyear-release/index.js:46-52 | `"a.b.c"` with digit fields reads as `[a, b, c, 0]` |
| `Release.ParseLabelledVersion` | scripts/lightyear-release/index.js:46-52 | `"a.b.c-label.n"` with digit fields reads as `[a, b, c, n]` whatever the label says |
| `Release.FormatRoundTrip` | scripts/lightyear-release/index.js:46-72 | reading back a formatted version gives the version; a canary number of 0 or `NaN` is written without a suffix and reads back as 0 |
| `Release.SuffixedFormatRoundTrip` | scripts/lightyear-release/index.js:46-72 | a version with a truthy canary number is written with `-canary.N` and reads back unchanged |
| `Release.MainTextRoundTrip` | scripts/lightyear-release/index.js:70 | `"M.m.p"` holds no '-' and reads back as the first three numbers |
| `Release.Bump` | scripts/lightyear-release/index.js:62-68 | earlier positions are kept, the bumped one is incremented, every later one is 0 |
| `Release.CalculateNextVersion` | scripts/lightyear-release/index.js:54-73 | the in-place bump with its zeroing loop returns the formatted bump of the parsed version |
| `Release.ReleaseBumpHasNoSuffix` | scripts/lightyear-release/index.js:62-72 | a major, minor or patch bump has no `-canary.` suffix and reads back exactly as the bumped version |
| `Release.CanaryBumpAddsSuffix` | scripts/lightyear-release/index.js:62-72 | a canary bump keeps major.minor.patch and writes `-canary.N` with N the old canary number plus one |
| `Release.PatchBumpOfTwoFieldVersion` | scripts/lightyear-release/index.js:62-72 | a patch bump of a two-field version `"x.y"` gives `"x.y.NaN"` |
| `Release.CanaryBumpOfNaN` | scripts/lightyear-release/index.js:62-72 | a canary bump of an unreadable canary number stays `NaN`, drops the suffix and reads back with canary 0 |
| `Release.PublishOptions` | scripts/lightyear-release/index.js:370-374 | the publish arguments start with `publish`, end with `--tag tagType`, and hold `--dry-run` exactly when the release type is not `Real release` |
| `ArticlePage.ArticleReducer` | examples/redux/src/app/Article.js:5-16 | success and error store their value under the id and keep every other key; any other action returns the state; an `undefined` state starts empty |
| `ArticlePage.ArticleReducerIdempotent` | examples/redux/src/app/Article.js:9-14 | dispatching an action twice gives the same state as once |
| `ArticlePage.Article` | examples/redux/src/app/Article.js:33-56 | suspends on the fetch of `id` exactly when the stored value is falsy or nothing is stored and `id` names no inherited `Object.prototype` member; error view exactly when the value read is truthy but lacks a truthy title or body (an inherited member included); otherwise shows the stored title and body |
| `ArticlePage.InheritedNameShowsErrorView` | examples/redux/src/app/Article.js:33-47 | an id such as `constructor` with nothing stored reads the inherited member, which is truthy and has no title, so the page shows the error view and does not fetch |
| `ArticlePage.StoringSettlesOnlyThatArticle` | examples/redux/src/app/Article.js:7-39 | after a fetch is stored, the page for that id stops suspending exactly when the stored value is truthy, and the page for every other id is unchanged |
| `HomePage.ArticleListReducer` | examples/redux/src/app/Home.js:5-16 | list success replaces `articles` with the payload and keeps the other fields; any other action returns the state; an `undefined` state has an empty list |
| `HomePage.ArticleListReducerIdempotent` | examples/redux/src/app/Home.js:11-14 | dispatching an action twice gives the same state as once |
| `HomePage.ListItems` | examples/redux/src/app/Home.js:44-48 | one item per article in list order, keyed by position, linking to `/id` and labelled with the title |
| `HomePage.Home` | examples/redux/src/app/Home.js:28-52 | suspends on the list fetch exactly when the list is empty; otherwise renders one item per article in list order |
| `HomePage.ListArrivalSettlesHome` | examples/redux/src/app/Home.js:9-38 | after the list arrives the page renders one item per payload entry, in payload order, keyed by position, linking to `/id` and labelled with the title, unless the list is empty, in which case it throws the fetch again |

## Left out

- This project covers only the release script's version handling and the Redux example's reducers and pages. The suspension-aware asynchronous server renderer (`ReactPartialRenderer`) is outside that scope, and so are the string and Node stream wrappers around it, the server entry points and the rendering tests that describe it.
- `release()` and `getUserInput()` beyond the publish-argument rule: prompts, `git`, `yarn` and `npm` processes, the CircleCI status request, file writes and `process.exit` are I/O.
- `Js.ToNumberReadsDecimal`, `Js.ToNumberOfPaddedDecimal` (and the `Js.ToNumber` they describe): read only digit-only text as a number; JavaScript's `Number` conversion also accepts surrounding whitespace, a leading `+`, `0x`/`0o`/`0b` prefixes, exponents and `Infinity`, which the model reads as `NaN`. It reads digit text exactly, as an unbounded natural: JavaScript rounds to the nearest double above 2^53 (`+"9007199254740993"` is 9007199254740992) and reads digit text beyond about 1.8e308 as `Infinity`.
- `Js.Inc`: adds one to an unbounded natural; on a double, `x + 1` is rounded to the nearest double (ties to even): between 2^53 and 2^54 it gives x or x + 2, from 2^54 up it gives x, and `Infinity` stays `Infinity`.
- `Js.ToText`: writes every natural number in plain decimal; JavaScript switches to exponent notation from 10^21 and loses precision above 2^53.
- `Release.SemverType` has four cases; an unknown `semverType` (an `undefined` position in the source) is not modelled, since the script's prompts only produce the four known ones.
- Reading the current version from `package.json` (`getPackageVersion`) is I/O; the model takes the version text as a parameter.
- The benchmarks, the example servers and clients, the Apollo and urql examples, and `createStore.js` (library wiring of the two reducers) are left out.
- `fetchArticle` and `fetchArticles` are network I/O. The model keeps only which fetch a page throws: `Suspend(id)` or `SuspendFetchArticles`.
- `ArticlePage.Article` and `HomePage.Home` return which view is shown and its data, not the JSX markup (section, back link, headings).
- Stored article values are reduced to their truthiness and the truthiness of their `title` and `body` strings; other fields, and non-string titles or bodies, are not modelled. Store keys are the ids' text, as JavaScript object keys are; reading a key without an own entry falls back to the twelve `Object.prototype` members and otherwise to `undefined`, and other inherited properties (added to the prototype at run time) are not modelled.
- Article ids in the list payload are numbers in the example server; the model holds them as their text, which is what the template literal of the link writes.
- `HomePage.ArticleListState.others` stands for fields of the list slice other than `articles`, with their values abstracted as text; the model does not exclude a key `"articles"` in it, which a JavaScript object could not hold beside the list.
