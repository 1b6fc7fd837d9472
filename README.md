# A verified model of the porto front-end helpers

This project models the original logic of a portfolio site's front end in
Dafny and proves properties of that model.

- **`SplitText` text segmenter** (`src/utils/splitText.js`):
  - reads an element's text and splits it with `text.split(/(\s+)/)`;
  - wraps every non-whitespace token in a word `<span>` carrying `data-word`;
  - in `chars` mode, also wraps every UTF-16 code unit in a char `<span>` carrying `data-char`;
  - writes the markup into `innerHTML`, then re-reads the spans with `querySelectorAll`;
  - `revert()` puts `dataset.originalText` back.
- **`splitIntoWords` / `splitIntoChars`**: the convenience wrappers around the segmenter. The blur-reveal component uses the segmenter the same way.
- **Theme hook** (`src/hooks/useTheme.js`):
  - a dark/light preference read from storage;
  - changed by a toggle and two setters;
  - written back to storage and to the document root by an effect.
- **Reduced-motion helpers** (`src/hooks/useReducedMotion.js`): `getMotionConfig` and `getMotionDuration`.
- **Scroll-reveal hook** (`src/hooks/useReveal.js`):
  - the direction → `fromVars`/`toVars` table;
  - the choice of animated elements;
  - the stagger and the `toggleActions` string;
  - the tween these add up to.
- **`CountUp` helpers** (`src/components/CountUp/CountUp.jsx`):
  - `getDecimalPlaces` (with `parseInt`) and `maxDecimals`;
  - the start and target of the count;
  - the digit split;
  - the separator substitution on the formatted number.

Files:

- `Wrappers.dfy`: `Option`.
- `JsText.dfy`:
  - text as UTF-16 code units;
  - the `\s` whitespace set;
  - `join('')` and whitespace removal.
- `Tokenizer.dfy`: `split(/(\s+)/)` and the shape of its result.
- `Dom.dfy`:
  - nodes as values;
  - an `Element` class with `textContent`, `innerHTML`, `dataset.originalText` and `querySelectorAll`.
- `SplitText.dfy`: the `SplitText` class. The token loop and the char loop are methods with loop invariants.
- `SplitTextProps.dfy`: what the generated markup is.
- `SplitTextUtils.dfy`: `splitIntoWords`, `splitIntoChars`, the blur-reveal lifecycle and the revert round trip.
- `Theme.dfy`: the `ThemeState` class, its helpers and its lemmas.
- `ReducedMotion.dfy` and `Reveal.dfy`: the motion configuration and the reveal.
- `CountUp.dfy`: the counter's helpers.

Behaviours of the code worth knowing:

- **Word indices skip whitespace tokens.** `data-word` is the token index, so the words of "Hi there" are numbered 0 and 2, not 0 and 1 (`TwoWordSpans`).
- **Empty text still gives a span.** Empty text yields one empty word span, not zero words (`EmptyTextMarkup`).
- **A second split does not compound.** The markup is rebuilt from `textContent`, so splitting twice in words mode gives the same markup as splitting once (`ResplitWordsIsStable`). In chars mode only the `data-char` numbering continues from the earlier spans.
- **`revert()` does not restore the text.** It only acts on `dataset.originalText`, which nothing sets (see Findings).
- **Unavailable storage throws.** The theme initialiser has no `try`/`catch`, so storage that throws is not a fallback to dark. The model's storage is always readable.

## Model

| member | source | states |
|---|---|---|
| Tokenizer.SplitOnWhitespace | src/utils/splitText.js:36 | the first token is the longest leading run with no whitespace |
| Tokenizer.SplitJoins | src/utils/splitText.js:36 | the tokens concatenate back to the text exactly |
| Tokenizer.SplitAlternates | src/utils/splitText.js:36 | there is an odd number of tokens; even-indexed tokens hold no whitespace; odd-indexed tokens are non-empty whitespace runs; only the first and last may be empty |
| Tokenizer.SplitUnique | src/utils/splitText.js:36 | any alternating token list that joins to the text is the split of that text |
| Tokenizer.WhitespaceTokenAtOdd | src/utils/splitText.js:36-40 | a token matches `/^\s+$/` exactly when its index is odd |
| Tokenizer.WordTokensJoin | src/utils/splitText.js:36-44 | the non-whitespace tokens join to the text with its whitespace removed |
| Tokenizer.WordTokensCount | src/utils/splitText.js:36-44 | there are (n+1)/2 non-whitespace tokens among n, and the k-th is token 2k |
| Tokenizer.LeadLen | src/utils/splitText.js:36 | the maximal run of whitespace or non-whitespace at the start of a string |
| JsText.ConcatAppend | src/utils/splitText.js:36 | joining distributes over sequence concatenation |
| Dom.TextOfAppend | src/utils/splitText.js:27 | the `textContent` of a list of siblings is the text of the first part followed by the rest |
| Dom.SelectAppend | src/utils/splitText.js:68-70 | `querySelectorAll` over a list of siblings returns the matches of the first part, then those of the rest |
| Dom.Element.SetTextContent | src/utils/splitText.js:76 | the `textContent` setter replaces the children by one text node (none for empty text), after which `textContent` reads back the text |
| Dom.Element.SetInnerHtml | src/utils/splitText.js:65 | the `innerHTML` setter replaces the children by the parsed markup and keeps the dataset |
| Dom.Element.SetOriginalText | src/utils/splitText.js:75 | writing the `data-original-text` attribute that `revert()` reads; the children are kept |
| JsText.RemoveSpacesAppend | src/utils/splitText.js:36-44 | whitespace removal distributes over concatenation |
| SplitTextModel.SplitText.constructor | src/utils/splitText.js:7-24 | nothing is split for a null element or a type other than words/chars; otherwise the element holds the markup of its old text and `words`/`chars` are the spans found in it |
| SplitTextModel.SplitText.Split | src/utils/splitText.js:26-33 | only `words` and `chars` split, and `data-char` continues from the existing `chars` |
| SplitTextModel.SplitText.SplitWords | src/utils/splitText.js:35-72 | the element's children are the markup of the text; `words`/`chars` are the spans re-read from it |
| SplitTextModel.SplitText.EmitTokens | src/utils/splitText.js:39-63 | the loop's output is the markup of the tokens in order; `words` gains one record per non-whitespace token holding the token and its index; in chars mode `chars` gains one record per code unit of those tokens holding the word index and position, otherwise it is unchanged |
| SplitTextModel.EmitStep | src/utils/splitText.js:39-63 | one turn of the loop extends the markup and the records of the first tokens to those of one more token |
| SplitTextModel.RecordsSnoc | src/utils/splitText.js:44-62 | appending a token pushes its word record and char records, and nothing for a whitespace run |
| SplitTextModel.TokenRecordsFollowWords | src/utils/splitText.js:44-62 | the word records are the non-whitespace tokens in order; the char records are their code units in order, as many as the char count |
| SplitTextModel.SplitText.EmitToken | src/utils/splitText.js:40-62 | a whitespace token is emitted as bare text and pushes nothing; any other token becomes a word span numbered by its index and pushes one word record |
| SplitTextModel.SplitText.WrapChars | src/utils/splitText.js:46-55 | one char span per code unit, numbered from the current length of `chars`, with one record per code unit holding the word index and the position in the word |
| SplitTextModel.SplitText.Commit | src/utils/splitText.js:65-71 | `innerHTML` is replaced, and `words` (and in chars mode `chars`) become the spans of the new content |
| SplitTextModel.SplitText.Revert | src/utils/splitText.js:74-78 | the text is restored only when `dataset.originalText` is present and non-empty; otherwise nothing changes |
| SplitTextModel.WordTokensSnoc | src/utils/splitText.js:39-62 | appending a token adds it to the word list exactly when it is not whitespace |
| SplitTextModel.CharCountSnoc | src/utils/splitText.js:49-53 | appending a token adds its length to the char count exactly when it is not whitespace |
| SplitTextProps.BuildShape | src/utils/splitText.js:39-63 | the markup has one node per token, and node i is the node of token i with `data-char` base plus the code units before it |
| SplitTextProps.BuildShapeAlternating | src/utils/splitText.js:39-63 | on split output, odd nodes are bare whitespace text; even nodes are word spans whose text is the token and holds no whitespace |
| SplitTextProps.MarkupShape | src/utils/splitText.js:36-63 | for any text, whitespace tokens are never wrapped and each word span carries class, `data-word` = token index, and the token's text |
| SplitTextProps.WordTokenAt | src/utils/splitText.js:39-62 | the node of an even token is a word span with `data-word` equal to its index |
| SplitTextProps.CharSpansText | src/utils/splitText.js:46-55 | the char spans of a word read back as the word |
| SplitTextProps.WordSpanText | src/utils/splitText.js:47-58 | a word span reads back as its word in both modes |
| SplitTextProps.BuildText | src/utils/splitText.js:39-65 | the markup's text is the concatenation of the tokens |
| SplitTextProps.MarkupText | src/utils/splitText.js:36-65 | the `textContent` after splitting equals the original text |
| SplitTextProps.SelectCharSpans | src/utils/splitText.js:68-70 | querying a word's char spans by their class gives them all in order; any other class gives none |
| SplitTextProps.SelectAlternating | src/utils/splitText.js:68 | of alternating span/text nodes, the query returns the (n+1)/2 spans at the even positions |
| SplitTextProps.BuildWordSpans | src/utils/splitText.js:62-68 | the k-th word span found is node 2k of the markup |
| SplitTextProps.BuildWordSpanList | src/utils/splitText.js:58-68 | there are as many word spans as non-whitespace tokens; the k-th has `data-word` 2k and the k-th word as text |
| SplitTextProps.WordSpansOfMarkup | src/utils/splitText.js:36-68 | the same, for the markup of any text, provided the word and char classes differ or the type is `words` |
| SplitTextProps.CharSpansAppend | src/utils/splitText.js:49-53 | the char spans of a concatenation are those of each part with contiguous numbering |
| SplitTextProps.BuildCharSpans | src/utils/splitText.js:45-70 | the char spans of the markup are one span per code unit of the words, numbered contiguously from the base |
| SplitTextProps.CharSpansOfMarkup | src/utils/splitText.js:36-70 | in chars mode, when the word and char classes differ, the char spans are one per non-whitespace code unit of the text, with `data-char` base..base+M-1 in reading order |
| SplitTextProps.CharSpansIndexed | src/utils/splitText.js:50 | char span k carries `data-char` base+k and the k-th code unit |
| SplitTextProps.BuildNoCharSpans | src/utils/splitText.js:57-60 | words mode produces no char spans |
| SplitTextProps.WordsModeHasNoCharSpans | src/utils/splitText.js:57-71 | the same, for the markup of any text |
| SplitTextProps.EmptyTextMarkup | src/utils/splitText.js:36-62 | empty text yields exactly one empty word span, `data-word` 0 |
| SplitTextProps.BuildEmptyToken | src/utils/splitText.js:40-62 | an empty token becomes a span with no content |
| SplitTextProps.LeadingSpaceGivesEmptyWord | src/utils/splitText.js:36-62 | leading whitespace yields an empty first token, wrapped in an empty span |
| SplitTextProps.TrailingSpaceGivesEmptyWord | src/utils/splitText.js:36-62 | trailing whitespace yields an empty last token, wrapped in an empty span |
| SplitTextProps.BuildWordsBaseFree | src/utils/splitText.js:57-59 | words-mode markup does not depend on how many chars were recorded before |
| SplitTextProps.ResplitWordsIsStable | src/utils/splitText.js:27-65 | splitting the split element again in words mode reproduces the same markup |
| SplitTextProps.TwoWordsSplit | src/utils/splitText.js:36 | two words around one whitespace run split into exactly those three tokens |
| SplitTextProps.TwoWordSpans | src/utils/splitText.js:39-68 | e.g. "Hi there": the word spans are "Hi" with `data-word` 0 and "there" with `data-word` 2 |
| SplitTextUtils.SplitIntoWords | src/utils/splitText.js:82-85 | null gives []; otherwise one span per non-whitespace token, the k-th numbered 2k and holding the k-th word |
| SplitTextUtils.SplitIntoChars | src/utils/splitText.js:88-91 | null gives []; otherwise the element holds the chars-mode markup and the result is the query for the class; when the class is not `split-word`, that is one char span per non-whitespace code unit, numbered from 0 |
| SplitTextUtils.BlurTextSplitAndCleanup | src/components/BlurText/BlurText.jsx:39-45 | with no `data-original-text`, the cleanup's `revert()` leaves the word or char spans in place; the text is unchanged |
| SplitTextUtils.HiThereMarkup | src/utils/splitText.js:36-62 | the markup of "Hi there" is three nodes led by a span, not the single text node |
| SplitTextUtils.SplitThenRevertOnHiThere | src/utils/splitText.js:74-78 | on an element holding "Hi there" and no `data-original-text`, split then `revert()` leaves the split markup (three nodes led by a word span) in place; only `textContent` is as before |
| SplitTextModel.SplitText.SplitCapturing | src/utils/splitText.js:26-33 | split, after storing the current text in `dataset.originalText` |
| SplitTextModel.SplitText.Capturing | src/utils/splitText.js:7-24 | the constructor with that split: `dataset.originalText` holds the old text, the element holds its markup, and `words`/`chars` are the spans found in it (both empty for a null element or a non-splitting type) |
| SplitTextUtils.CapturedSplitThenRevert | src/utils/splitText.js:74-78 | split then revert restores `textContent` exactly, as a single text node for non-empty text |
| Theme.InitialTheme | src/hooks/useTheme.js:10-19 | a stored "dark" or "light" is kept; anything else, or nothing, gives dark |
| Theme.Toggled | src/hooks/useTheme.js:27-29 | the theme after the toggle is valid and differs from a valid prior theme |
| Theme.ToggleTwice | src/hooks/useTheme.js:27-29 | toggling twice gives back the theme |
| Theme.ExactlyOneOfDarkAndLight | src/hooks/useTheme.js:36-37 | for a valid theme exactly one of `isDark` and `isLight` holds |
| Theme.SetItemThenGetItem | src/hooks/useTheme.js:12-24 | `getItem` after `setItem` on the same key gives the value written, and other keys read as before |
| Theme.ReloadRestoresTheme | src/hooks/useTheme.js:10-25 | what the effect stores is what the next initialiser reads |
| Theme.EmptyStorageGivesDark | src/hooks/useTheme.js:12-18 | with nothing stored the theme is dark |
| Theme.ThemeState.constructor | src/hooks/useTheme.js:10-25 | mounting reads the stored value and runs the effect once |
| Theme.ThemeState.ApplyTheme | src/hooks/useTheme.js:22-25 | the document attribute and the stored key become the theme; other storage keys are kept |
| Theme.ThemeState.SetTheme | src/hooks/useTheme.js:22-32 | after a change the theme, the document attribute and the stored key agree |
| Theme.ThemeState.ToggleTheme | src/hooks/useTheme.js:27-29 | the theme flips and stays mirrored |
| Theme.ThemeState.SetDarkTheme | src/hooks/useTheme.js:31 | the theme becomes dark whatever it was |
| Theme.ThemeState.SetLightTheme | src/hooks/useTheme.js:32 | the theme becomes light whatever it was |
| Theme.ThemeState.IsDark | src/hooks/useTheme.js:36 | in a committed state `isDark` agrees with the document's `data-theme` and the stored key, and is the negation of `isLight` |
| Theme.ThemeState.IsLight | src/hooks/useTheme.js:37 | in a committed state `isLight` agrees with the document's `data-theme` and the stored key, and is the negation of `isDark` |
| Theme.ToggleTwiceRestores | src/hooks/useTheme.js:27-29 | two toggles restore the theme and the storage |
| Theme.SetLightTwiceIsOnce | src/hooks/useTheme.js:32 | calling the light setter twice equals calling it once |
| Theme.SetDarkTwiceIsOnce | src/hooks/useTheme.js:31 | calling the dark setter twice equals calling it once |
| Theme.SetLightThenReload | src/hooks/useTheme.js:10-32 | after choosing light, a fresh hook on the same storage starts light |
| ReducedMotion.GetMotionDuration | src/hooks/useReducedMotion.js:28-30 | 0.01 when reduced, the given duration otherwise |
| ReducedMotion.GetMotionConfig | src/hooks/useReducedMotion.js:33-42 | unchanged when not reduced; when reduced, duration 0.01 and ease "none", with every other key kept |
| ReducedMotion.MotionConfigIdempotent | src/hooks/useReducedMotion.js:33-42 | applying the override twice equals applying it once |
| ReducedMotion.MotionConfigKeepsTiming | src/hooks/useReducedMotion.js:35-39 | `stagger` and `delay` pass through the override untouched |
| ReducedMotion.MotionConfigDuration | src/hooks/useReducedMotion.js:28-39 | the two helpers agree on the duration |
| Reveal.ResolveOptions | src/hooks/useReveal.js:13-23 | field by field and independently of the others: an option the caller gives is kept exactly, and one left out takes its default (`up`, 40, 0.8, 0, 0.1, `once`, no selector, `power3.out`) |
| Reveal.ResolveGiven | src/hooks/useReveal.js:13-23 | options given in full come back unchanged |
| Reveal.DistanceOnlyGiven | src/hooks/useReveal.js:13-23 | `useReveal({ distance: d })` is the defaults with distance d |
| Reveal.DefaultReveal | src/hooks/useReveal.js:13-90 | with no options the element alone is revealed once, over 0.8 s with `power3.out` (or the reduced-motion values), no delay and no stagger |
| Reveal.AnimatedKeys | src/hooks/useReveal.js:32-72 | every direction animates `opacity` |
| Reveal.DirectionVars | src/hooks/useReveal.js:32-72 | opacity goes 0→1; from and to have the same keys; the to-values are the resting ones; each direction's offsets are the cited constants; an unknown direction animates opacity only |
| Reveal.AnimatedKeysAreNotTiming | src/hooks/useReveal.js:32-80 | the animated properties never collide with the timing keys |
| Reveal.RevealTargets | src/hooks/useReveal.js:29 | no (or an empty) child selector animates just the element; otherwise the children the selector finds |
| Reveal.StaggerFor | src/hooks/useReveal.js:79 | the stagger applies only with more than one child |
| Reveal.ToggleActions | src/hooks/useReveal.js:90 | "play none none none" exactly when `once`, else "play none none reverse" |
| Reveal.RevealMotionConfig | src/hooks/useReveal.js:75-80 | duration and ease follow the motion preference; delay and the chosen stagger survive it |
| Reveal.RevealTween | src/hooks/useReveal.js:95-106 | several children are staggered together, otherwise the element itself is tweened; on shared keys the motion config wins |
| Reveal.RevealElement | src/hooks/useReveal.js:25-106 | `gsap.set` prepares the chosen children with opacity 0; the tween ends opaque at the resting values with the motion-safe duration; it animates those children when there are several (with the stagger) and the container otherwise, so no selector means the element alone with stagger 0 |
| Reveal.SingleMatchIsNotTweened | src/hooks/useReveal.js:83-106 | a selector matching one child prepares that child but tweens only the container |
| Reveal.IntendedRevealTween | src/hooks/useReveal.js:95-106 | the corrected tween animates exactly the prepared elements, with toVars and the motion config |
| Reveal.IntendedRevealAgrees | src/hooks/useReveal.js:95-106 | the corrected tween equals the written one when there are several children or no selector |
| Reveal.IntendedRevealElement | src/hooks/useReveal.js:25-106 | corrected reveal: every element `gsap.set` made transparent is tweened to opacity 1 and the resting values, with the stagger only for several children |
| CountUp.TrimStart | src/components/CountUp/CountUp.jsx:49 | `parseInt` skips exactly the leading `\s` code units |
| CountUp.DigitPrefixLen | src/components/CountUp/CountUp.jsx:49 | the longest run of leading decimal digits |
| CountUp.DigitsValueZero | src/components/CountUp/CountUp.jsx:49 | a digit string is worth 0 exactly when all its digits are 0 |
| CountUp.DigitRun | src/components/CountUp/CountUp.jsx:49 | the digits `parseInt` reads: the longest digit prefix after the leading whitespace and an optional sign |
| CountUp.ParseIntDecimal | src/components/CountUp/CountUp.jsx:49 | NaN exactly when no digit follows; otherwise the value of those digits, negated after a leading `-`; 0 exactly when all digits read are 0 (so "-0" counts as 0) |
| CountUp.ParseIntOfSigned | src/components/CountUp/CountUp.jsx:49 | "d", "+d" and "-d" for a digit string d read as its value, its value and its negation |
| CountUp.DigitRunOfDigits | src/components/CountUp/CountUp.jsx:49 | a plain digit string is read whole |
| CountUp.IndexOf | src/components/CountUp/CountUp.jsx:47-48 | the position of the first occurrence, or the length |
| CountUp.FractionPart | src/components/CountUp/CountUp.jsx:48 | `split(".")[1]` holds no dot |
| CountUp.DecimalPlaces | src/components/CountUp/CountUp.jsx:45-52 | 0 with no dot; otherwise 0 or the fraction's length; never more than the string |
| CountUp.FractionOfDecimal | src/components/CountUp/CountUp.jsx:48 | the fraction of "ip.fd" is fd |
| CountUp.DecimalPlacesNonzeroFraction | src/components/CountUp/CountUp.jsx:47-49 | a fraction with a nonzero digit counts all its digits, leading zeros included |
| CountUp.DecimalPlacesZeroFraction | src/components/CountUp/CountUp.jsx:49-51 | an all-zero fraction gives 0 |
| CountUp.MaxDecimals | src/components/CountUp/CountUp.jsx:54 | at least each side's decimal places, and equal to one of them |
| CountUp.NumberFormatOptions | src/components/CountUp/CountUp.jsx:101-106 | grouping exactly when a separator is given; min and max fraction digits both equal `maxDecimals` |
| CountUp.StartAndTarget | src/components/CountUp/CountUp.jsx:25-28 | "down" starts at `to` and ends at `from`, any other direction the reverse; start and target are the two values |
| CountUp.SplitChars | src/components/CountUp/CountUp.jsx:60 | one single-character string per character, in order |
| CountUp.JoinSplitChars | src/components/CountUp/CountUp.jsx:58-60 | joining the digits gives the text back |
| CountUp.InitialDisplay | src/components/CountUp/CountUp.jsx:57-61 | the shown text is the start string and its digits join back to it |
| CountUp.SubstitutionOfPlain | src/components/CountUp/CountUp.jsx:114 | a replacement with no `$` is inserted as written |
| CountUp.ReplaceCommasOfPlain | src/components/CountUp/CountUp.jsx:114 | without `$` in the separator, `replace(/,/g, sep)` is the literal substitution |
| CountUp.DollarSeparatorIsAPattern | src/components/CountUp/CountUp.jsx:114 | with separator "$&", "1,000" stays "1,000" rather than "1$&000" |
| CountUp.LiteralReplaceRemovesCommas | src/components/CountUp/CountUp.jsx:113-115 | a separator without commas leaves no comma |
| CountUp.LiteralReplaceByChar | src/components/CountUp/CountUp.jsx:113-115 | a one-character separator replaces commas in place and changes nothing else |
| CountUp.LiteralReplaceByComma | src/components/CountUp/CountUp.jsx:113-115 | a comma separator changes nothing |
| CountUp.LiteralReplaceFacts | src/components/CountUp/CountUp.jsx:113-115 | the literal substitution leaves no comma when the separator has none, and agrees with `replace` when the separator has no `$` |
| CountUp.SeparatedText | src/components/CountUp/CountUp.jsx:113-115 | an empty separator leaves the text; a comma-free separator leaves no comma; a `$`-free separator agrees with `replace` |
| CountUp.UpdateDisplay | src/components/CountUp/CountUp.jsx:113-118 | as written: no separator shows the formatted text, otherwise `replace(/,/g, separator)`; for a separator without `$` that is the literal substitution and leaves no comma; with `cubic` the digits join back to the shown text |

## Left out

- HTML serialisation and parsing: `innerHTML` is modelled by the nodes the generated markup would parse to if the text were taken verbatim. The text is not escaped, and a browser's HTML parser changes it in ways the model does not:
  - a word containing `<` or `&` would be parsed as markup or a character reference;
  - CR and CRLF inside a whitespace token become LF;
  - U+0000 is dropped.
  So `SplitTextProps.MarkupText` ("the `textContent` after splitting equals the original text") holds only for text without these code units; on "a\r\nb", for example, a browser would read back "a\nb".
- Dom.Element.TextContent and Dom.Element.QuerySelectorAll: the `textContent` getter (src/utils/splitText.js:27) and `querySelectorAll` (src/utils/splitText.js:68-70) stand in for the browser's. They are definitions (text in document order; matching spans in pre-order) with no contract of their own; the SplitTextProps lemmas state what they give on the generated markup.
- A word class equal to the char class in chars mode (for example `splitIntoChars(el, 'split-word')`): both queries (src/utils/splitText.js:68, 70) then match the word spans and the char spans alike, so `words` and `chars` each hold every span in document order. SplitIntoChars states the exact markup and query result for this case too; the "one span per code unit" lemmas are stated only for distinct classes.
- Class names containing spaces or selector syntax, and the `SyntaxError` `querySelectorAll` throws for an invalid selector. The model's query matches the class name exactly.
- Constructing `SplitText` with a selector string (`document.querySelector`, src/utils/splitText.js:8): the model takes the element or null.
- An option explicitly set to `undefined`, which the spread copies over the default: the model's options are present or absent.
- The `lines` type: accepted, and nothing is split (src/utils/splitText.js:30). The `lines` array stays empty.
- `words`/`chars` as node references: they are modelled by the span values. Identity and aliasing of the DOM elements are not modelled.
- React state, effects and their scheduling. Each hook instance is a class (`ThemeState`) or the function of its inputs. Effects run synchronously after the state change. In `useReveal`, the effect's early return when the ref is not yet attached (src/hooks/useReveal.js:26) is not modelled: RevealElement is always given an element.
- `useReducedMotion`'s `matchMedia` listener: the preference is a parameter.
- The ScrollTrigger `start` string (`top ${100 - threshold*100}%`), a floating-point computation formatted as text.
- `threshold`'s other use, GSAP's `set`/`timeline`/`to` calls and the `useStaggerReveal`/`useDepthReveal` presets.
- Reveal: numbers are mathematical reals. The constants 0.01, 0.8, 15 and so on are exact, and only negation is applied to `distance`.
- `Number.prototype.toString`, `String(x)` and `Intl.NumberFormat`. The model takes the strings they produce.
- CountUp.DecimalPlaces: without `toString`, a number in exponent form such as `1.5e-7` gives the length of "5e-7", as the code does; the model does not connect this to the number itself.
- The spring physics (`damping`, `stiffness`), `useInView`, the timers and `onStart`/`onEnd` callbacks of CountUp.
- Rendering of the digits with framer-motion.
- Strings in the CountUp and theme models are Dafny `string`s of characters, not UTF-16 code units. The digits, sign and decimal point of a formatted number are ASCII, so for them this matches `split("")`. A separator outside the Basic Multilingual Plane is one character here but two code units to `split("")`, so with such a separator the model's digit list is shorter than the code's.

## Findings

| source | as written | input that shows it | evidently intended | confidence | as-written member | corrected member |
|---|---|---|---|---|---|---|
| src/utils/splitText.js:74-78 | `revert()` restores `dataset.originalText`, but `split` never sets it, so `revert()` does nothing | "Hi there": after split and revert the element still holds two word spans around a text node | `split` records the text first, so that `revert()` restores the original text as one text node | high, not executed | SplitTextUtils.SplitThenRevertOnHiThere | SplitTextUtils.CapturedSplitThenRevert |
| src/components/CountUp/CountUp.jsx:114 | the separator is passed to `replace` as a replacement string, so `$&`, `$$`, `` $` `` and `$'` in it are expanded | separator "$&" on "1,000" gives "1,000" | every comma replaced by the separator literally | low, not executed | CountUp.DollarSeparatorIsAPattern | CountUp.SeparatedText |
| src/hooks/useReveal.js:83-106 | `gsap.set` applies the start values to `children`, but with at most one child the tween animates `element` | a `childSelector` matching exactly one element: that element is set to opacity 0 and never tweened, so it stays invisible | the tween animates the same elements `gsap.set` prepared | medium, not executed | Reveal.SingleMatchIsNotTweened | Reveal.IntendedRevealElement |
