# Form validation and navigation of the marketing site, in Dafny

`script.js` is the browser-side layer of a small marketing website. This project models its
core:

- the contact form's validation, done by `FormValidator`;
- the cleaning of submitted values (`sanitizeInput`);
- the submit button's state;
- what happens for each outcome of the form's request;
- the mobile navigation toggle (`BurgerMenu`);
- the marking of the navigation link that points at the current page (`ActiveMenu`).

The modules follow the program's structure:

- `JsText` (`js_text.dfy`): the parts of ECMAScript string semantics the page relies on.
  - the white-space set that `\s` matches and `trim` strips;
  - the line terminators that `.` refuses;
  - UTF-16 length;
  - `startsWith`/`endsWith`;
  - the ASCII case folding of a `/i` regular expression without the `u` flag.
- `Patterns` (`patterns.dfy`): `ValidationPatterns`, as predicates over characters, and the
  `ErrorMessages` table.
- `FieldRules` (`field_rules.dfy`): the decision `validateField` takes for one control, as a
  pure function with one lemma per rule.
- `Sanitize` (`sanitize.dfy`): `sanitizeInput`. It makes three passes: drop `<` and `>`, make one
  left-to-right pass removing `javascript:` in any ASCII case, then trim.
- `FormValidation` (`form_validation.dfy`): the form as state.
  - each control has its `is-invalid` marker and its `.invalid-feedback` element;
  - the submit button has `disabled`, its text and `dataset.originalText`;
  - the methods are `validateField`, `validateForm`, `showError`, `clearError`,
    `disableSubmit`, `enableSubmit` and `handleSubmit`;
  - the request body is built from the form's entries.
- `Navigation` (`navigation.dfy`): `ActiveMenu`'s match rule and the loop over the links, and
  `BurgerMenu` as a class whose five event handlers keep the page in step with `isOpen`.

Four behaviours of the code are worth knowing before reading the contracts:

- **Sanitizing is not idempotent.** The `javascript:` removal is a single pass, and the text
  that closes up around a removed match can spell the scheme again. `"javajavascript:script:"`
  sanitizes to `"javascript:"`, and that sanitizes to `""` (`Sanitize.SanitizeNotIdempotent`).
  An already clean value is a fixed point (`Sanitize.SanitizeTextFixedPoint`).
- **A required unticked checkbox gets the consent text.** A required field that is empty after
  trimming gets the generic "required" text, except a required, unticked checkbox, whose
  consent text overrides every other verdict (`FieldRules.RequiredEmptyRejected`,
  `FieldRules.ConsentOverrides`).
- **Some non-empty values are never checked against a pattern.** An optional phone field
  accepts any non-empty value (`FieldRules.PhoneRuleIff`). A field whose name has no rule
  accepts any value that is non-empty after trimming, unless it is a required, unticked checkbox, which the consent
  rule still rejects (`FieldRules.UndispatchedNameIff`).
- **The home links are a special case.** A link to `/` or `/index.html` is active only on the
  home page: `/` itself, or a path ending in `/index.html`. The general "the path ends with the
  link" rule never applies to it, so `/` is not active on `/about/`
  (`Navigation.RootLinkOnlyOnHomePage`, `Navigation.ActivePathIff`).

## Model

| member | source | states |
|---|---|---|
| JsText.IsLineTerminator | script.js:22 | the line terminators `.` refuses: LF, CR, U+2028 and U+2029 |
| JsText.IsSpace | script.js:19-21 | the set `\s` matches and `trim` strips: the ECMAScript WhiteSpace characters (tab, VT, FF, space, U+00A0, U+1680, U+2000..U+200A, U+202F, U+205F, U+3000, U+FEFF) plus the line terminators |
| JsText.TrimStartSpec | script.js:125 | the leading part `trim` drops is all white space, and what is left is a suffix that starts with a non-space |
| JsText.TrimEndSpec | script.js:125 | the trailing part `trim` drops is all white space, and what is left is a prefix that ends with a non-space |
| JsText.TrimSpec | script.js:125 | a trimmed value is no longer than the value, and neither of its ends is white space |
| JsText.TrimIsInfix | script.js:125 | a trimmed value is a contiguous middle of the value, and only white space was cut off on either side |
| JsText.TrimShrinks | script.js:275 | trimming only drops characters: the result's multiset is contained in the value's |
| JsText.TrimEmptyIff | script.js:125-132 | the trimmed value is empty exactly when the value is all white space, which is when the emptiness test `!value` fires |
| JsText.TrimOfTrimmed | script.js:275 | a value with no white space at either end is unchanged by `trim` |
| JsText.TrimOfPadded | script.js:275 | `trim` removes exactly the white-space padding around a core that starts and ends with a non-space |
| JsText.Trim | script.js:125 | `trim` reads as dropping white space from the front, then from the back |
| JsText.StartsWith | script.js:526 | `startsWith` reads as: the prefix is no longer than the string and equals its first characters |
| JsText.EndsWith | script.js:525-527 | `endsWith` reads as: the suffix is no longer than the string and equals its last characters |
| JsText.AsciiLower | script.js:274 | the case folding of a `/i` match without the `u` flag on an ASCII pattern: `A`..`Z` fold to `a`..`z`, nothing else folds onto an ASCII letter |
| JsText.Utf16Length | script.js:22 | the length that `.{10,}` counts is between the number of characters and twice that number |
| Patterns.NamePattern | script.js:19 | the name pattern reads as 2 to 50 characters, each an ASCII letter, a character in U+00C0..U+00FF, white space, `-` or `'` |
| Patterns.EmailPattern | script.js:20 | the email pattern reads as a split of the whole value into a run, `@`, a run, `.`, a run, each run non-empty and free of white space and `@` |
| Patterns.PhonePattern | script.js:21 | the phone pattern reads as 10 to 20 characters, each a digit, white space, `+`, `-`, `(` or `)` |
| Patterns.MessagePattern | script.js:22 | the message pattern reads as at least ten UTF-16 units and no line terminator |
| Patterns.ErrorMessages | script.js:25-38 | the twelve keys of the table with their German texts |
| Patterns.EmailPatternIffShape | script.js:20 | the email pattern accepts exactly the values with no white space, exactly one `@` that is not first, and a `.` after it with a character on each side |
| Patterns.EmailExamples | script.js:20 | `a@b.c` passes the email pattern and `a@b` fails it |
| FieldRules.FieldName | script.js:126 | the name the rules look up is `name`, or `id` when `name` is empty |
| FieldRules.ConsentMissing | script.js:182 | the consent rule applies to a checkbox that is required and not ticked |
| FieldRules.CheckByName | script.js:136-180 | the `switch` on the field name rejects exactly when it sets a message, so a rejection always carries a non-empty text |
| FieldRules.ValidateField | script.js:124-192 | `validateField` rejects a control exactly when it has a message for it, so no control is marked invalid with an empty text |
| FieldRules.RequiredEmptyRejected | script.js:132-185 | a required field that is empty after trimming is rejected with the generic text, except that a required unticked checkbox gets the consent text |
| FieldRules.OptionalEmptyAccepted | script.js:132-135 | an optional field that is empty after trimming is accepted, whatever its name |
| FieldRules.Reached | script.js:132-135 | once the value is non-empty after trimming and the consent rule does not apply, the verdict is the `switch`'s verdict on the trimmed value |
| FieldRules.UndispatchedNameIff | script.js:135-180 | a field whose name has no rule is valid iff it is not a required unticked checkbox and not required-and-empty |
| FieldRules.ConsentOverrides | script.js:182-185 | a required unticked checkbox is rejected with the consent text, whatever was decided before |
| FieldRules.NameRuleIff | script.js:137-144 | a non-empty `name`/`firstName`/`lastName` is valid iff its trimmed value matches the name pattern, and a failure carries that field's own text |
| FieldRules.EmailRuleIff | script.js:145-150 | a non-empty `email` is valid iff its trimmed value has the email shape, and a failure carries the email text |
| FieldRules.PhoneRuleIff | script.js:151-156 | a non-empty `phone` is valid iff the field is optional or the trimmed value matches the phone pattern |
| FieldRules.MessageRuleIff | script.js:157-162 | a non-empty `message` is valid iff its trimmed value is at least ten UTF-16 units long with no line terminator |
| FieldRules.MessageLineBreakRejected | script.js:157-162 | a message with a line terminator inside its trimmed value is rejected, however long it is |
| FieldRules.ChoiceRuleIff | script.js:163-169 | a non-empty `destination`/`service` is valid iff it is not the placeholder `default`, and a failure carries that field's own text |
| FieldRules.TravelDateRuleIff | script.js:170-178 | a non-empty `travelDate` is valid iff it is not before today, and a failure carries the past-date text |
| FieldRules.NameClassTakesTimesAndDivide | script.js:19 | the name class spans U+00C0..U+00FF whole, so `×` and `÷` are accepted in names |
| Sanitize.SanitizeText | script.js:272-275 | a string value goes through the bracket removal, then the scheme removal, then `trim` |
| Sanitize.SchemeAt | script.js:274 | `/javascript:/i` matches at a position when the next eleven characters fold to `javascript:` |
| Sanitize.RemoveScheme | script.js:274 | the removal scans left to right, drops each ASCII-case-insensitive match of `javascript:` and resumes right after it, so matches do not overlap and text closing up behind a removal is not scanned again |
| Sanitize.StripAngles | script.js:273 | the result of removing `[<>]` holds no `<` and no `>` |
| Sanitize.StripAnglesCounts | script.js:273 | every character other than `<` and `>` keeps its number of occurrences |
| Sanitize.RemoveSchemeShrinks | script.js:274 | removing `javascript:` only drops characters |
| Sanitize.SanitizeInput | script.js:270-276 | a non-string value is returned unchanged, and a string value gives a string |
| Sanitize.SanitizeTextSafe | script.js:270-276 | a sanitized string holds no `<` or `>` and has no white space at either end |
| Sanitize.SanitizeTextFixedPoint | script.js:270-276 | a string with no brackets, no match of `javascript:` anywhere and no white space at either end is left as it is |
| Sanitize.SanitizeTagged | script.js:270-276 | a padded `<a>javascript:b<c>` (with no `j` and no brackets in `a`, `b`, `c`) sanitizes to `a + b + c`, where `a` is non-empty and starts with a non-space and `c` is non-empty and ends with a non-space (otherwise `trim` also cuts into `a` or `c`) |
| Sanitize.SanitizeExample | script.js:270-276 | `"  <script>javascript:alert(1)</script>  "` sanitizes to `"scriptalert(1)/script"` |
| Sanitize.SanitizeSpliced | script.js:274 | a match wrapped in the two halves of another match leaves exactly `javascript:` behind |
| Sanitize.SanitizeNotIdempotent | script.js:270-276 | `"javajavascript:script:"` sanitizes to `"javascript:"`, which sanitizes to `""` |
| FormValidation.FeedbackAfter | script.js:187-213 | after a validation the feedback shows the verdict's text on failure, and is hidden (when it exists) on success |
| FormValidation.FeedbackAfterTwice | script.js:124-213 | validating a control twice in a row leaves its feedback where one validation left it |
| FormValidation.RestoredLabel | script.js:289 | the restored label is the saved one when it is non-empty, and is never empty |
| FormValidation.FailureText | script.js:260 | a server failure's notice is never empty: it is the server's message when that is non-empty, and the generic failure text otherwise |
| FormValidation.Payload | script.js:240-243 | the request body's keys are exactly the names of the form's entries other than `__proto__`, which a plain object does not store as a key |
| FormValidation.PayloadLastWins | script.js:240-243 | under each name other than `__proto__` the body holds the sanitized value of the last entry with that name |
| FormValidation.PayloadClean | script.js:240-243 | every text in the body is free of brackets and has no white space at either end |
| FormValidation.BuildPayload | script.js:240-243 | the `forEach` loop builds exactly that body, skipping `__proto__` |
| FormValidation.FormValidator.ClearError | script.js:207-213 | the marker is removed and an existing feedback element is hidden, with its text kept |
| FormValidation.FormValidator.ShowError | script.js:194-205 | the marker is set and the feedback element, created when missing, shows the message |
| FormValidation.FormValidator.ValidateField | script.js:124-192 | the result is the rule's verdict, the marker is set iff the result is false, and the feedback shows the verdict's message on failure and is hidden on success |
| FormValidation.FormValidator.OnInput | script.js:116-120 | a control already marked invalid is validated again, and any other control is left untouched |
| FormValidation.FormValidator.ValidateForm | script.js:215-226 | the result is true iff every control passes; every control is validated (no short-circuit) and ends marked iff it fails, with its feedback set as by a single `validateField` |
| FormValidation.FormValidator.DisableSubmit | script.js:278-284 | an existing button is disabled, its label is saved in `originalText`, and it shows the sending text |
| FormValidation.FormValidator.EnableSubmit | script.js:286-291 | an existing button is enabled and shows the saved label, or `Senden` when none was saved |
| FormValidation.FormValidator.HandleSubmit | script.js:228-268 | an invalid form shows the check-your-input notice and sends nothing, leaving the button as it was; a valid form sends the sanitized body; success shows the sent notice and redirects with the button still disabled; a server failure shows the server's text or the generic one; a transport failure shows the network text; after either failure the button is enabled with its old label; in every case each control's marker and feedback are left as `validateForm` set them, so every control's error text is visible at once |
| Navigation.IsActivePath | script.js:517-528 | a missing `href` never matches; a home link matches the home page; any other non-empty, non-fragment link matches when the path equals it or ends with it |
| Navigation.ActivePathIff | script.js:519-528 | a home link is active exactly on the home page; any other non-empty, non-fragment link is active exactly when the current path ends with it |
| Navigation.HomeLinksAgree | script.js:524-525 | `/` and `/index.html` are active on the same pages, namely the home page |
| Navigation.LinkActiveOnItsOwnPage | script.js:524-528 | a non-empty, non-fragment link is active on the very path it names |
| Navigation.FragmentsNeverActive | script.js:526 | `ActiveMenu`'s rule never matches a link with no `href`, an empty one, or a `#` fragment, so `ActiveMenu` never marks it |
| Navigation.RootLinkOnlyOnHomePage | script.js:524-528 | `/` is not active on `/about/`, although `/about/` ends with `/` |
| Navigation.MarkActiveLinks | script.js:512-535 | right after `ActiveMenu.init`, every link has the `active` class iff it matches the current path, and has `aria-current="page"` iff it has the class |
| Navigation.BurgerMenu.constructor | script.js:41-50 | the menu starts closed, and its listeners exist only when both the burger and the panel were found |
| Navigation.BurgerMenu.Synced | script.js:86-100 | the page is in step with `isOpen`: panel shown, full height, burger expanded and scrolling locked while open, all of it undone while closed |
| Navigation.BurgerMenu.Open | script.js:86-92 | the menu is open, the panel is shown at full height, the burger is expanded and page scrolling is locked |
| Navigation.BurgerMenu.Close | script.js:94-100 | the menu is closed and the panel, the burger and the page are all back to their closed state |
| Navigation.BurgerMenu.Toggle | script.js:82-84 | a burger click flips `isOpen` and brings the page in step with it |
| Navigation.BurgerMenu.OnNavLinkClick | script.js:56-60 | a link click closes an open menu below 768 pixels, and changes nothing otherwise |
| Navigation.BurgerMenu.OnKeyDown | script.js:63-67 | Escape closes an open menu, and changes nothing otherwise |
| Navigation.BurgerMenu.OnDocumentClick | script.js:69-73 | a click outside both the panel and the burger closes an open menu, and changes nothing otherwise |
| Navigation.BurgerMenu.OnResize | script.js:75-79 | reaching 768 pixels or more closes an open menu, and changes nothing otherwise |

## Left out

- The request itself is not modelled: the `fetch` POST to `process.php`, JSON encoding and parsing, and the redirect to `thank_you.html` after 1500 ms (script.js:244-267). `HandleSubmit` takes the outcome as a `Response` parameter. It returns the body it would send and a flag for the scheduled redirect.
- `FormValidation.Payload` (with `PayloadLastWins` and `BuildPayload`) models the one plain-object key rule that changes the body: an entry named `__proto__` stores no key. What a file entry under that name does to the object's prototype is not modelled, nor is the key order `JSON.stringify` uses.
- `FormData` (script.js:239-240) is not modelled. Its entries, in order, are a parameter, and a file entry is known only by its name.
- `FormValidation.FormValidator.HandleSubmit` does not model JavaScript truthiness of `result.success` and `result.message`. A reply's `success` is a flag and its `message` is an optional string. A non-string truthy message is not represented.
- `FormValidation.FormValidator.HandleSubmit` runs the request and its outcome as one step. Events that arrive between the request and its answer are not modelled.
- `NotificationManager` (script.js:294-335) is represented only by the `Notice` each call of `show` would display. Its DOM, its timers and its container are not modelled.
- `FieldRules.TravelDateRuleIff` takes "the date lies before today" as a parameter. The reason is that `new Date(value)` compared with local midnight depends on the clock and the time zone.
- Lone UTF-16 surrogates are not modelled. Dafny characters are Unicode scalar values, so a string here cannot contain one. `JsText.Utf16Length` counts a supplementary character as two units, as the message pattern does.
- `FormValidation.FormValidator.ShowError` treats each control as having its own feedback element. In the page, controls that share a parent also share the one `.invalid-feedback` element `querySelector` finds there; that sharing (aliasing) is not modelled.
- `FormValidation.FormValidator.DisableSubmit` models the button's new content only as its text (`Wird gesendet...`). The spinner `<span>` is markup and is not modelled.
- `JsText.Trim` has no postcondition of its own. Its properties are stated as the lemmas `TrimStartSpec`, `TrimEndSpec`, `TrimSpec` and `TrimIsInfix`, which keep the field rules cheap to verify.
- The other components of `script.js` are not part of this model: `ScrollAnimations`, `ImageAnimations`, `ButtonAnimations`, `SmoothScroll`, `ScrollSpy`, `CountUp`, the style sheet and the start-up code (script.js:337-505, 538-671). They depend on layout measurements, scroll positions, observers and timers.
- `ScrollSpy` (script.js:538-577) is not modelled, although it runs right after `ActiveMenu` (script.js:653-654) and on every scroll. It adds or removes `active` on each `#` link whose section contains the scroll position (script.js:563-575). So a fragment link in the navigation can carry `active` later, even though `ActiveMenu` never marks it; the `Navigation` contracts describe `ActiveMenu`'s own marking only.
- The listeners that `FormValidator.init` installs (script.js:110-122) appear only as the methods they call (`ValidateField` on blur, `OnInput`, `HandleSubmit`). `preventDefault` and `stopPropagation` are not modelled.
