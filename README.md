# InnvestAI landing page: the decision logic of the waitlist form

The site is a static page. Its scripts hold a small core of decisions, and this project models them in Dafny:

- `js/config.js` builds `INNVEST_CONFIG`. It classifies the hostname as development, staging or production, sets the default API, feature, UI and analytics values, and then, on development only, switches debug mode on and shortens the request timeout (module `Config`).
- `js/main.js` has `isValidEmail`, a single regular expression (module `Email`).
- `js/main.js` also has the waitlist submit handler, the single-slot `showAlert`, and the cookie notice (`showCookieNotice`, `acceptCookies`) (module `Landing`).

`Email` models the expression `^[^\s@]+@[^\s@]+\.[^\s@]+$` in two ways:
- `IsValidEmail` runs a small deterministic automaton, which decides what a regular-expression engine decides for this pattern;
- `MatchesShape` states what the pattern means: `local + "@" + domain`, where `local` is non-empty, both parts are free of whitespace and `@`, and some `.` of the domain has a character before it and a character after it.

The contract of `IsValidEmail` states, and its proof establishes, that the two agree on every string. Whitespace is the set of characters JavaScript's `\s` matches: the ECMAScript WhiteSpace and LineTerminator code points, that is U+0009 to U+000D, U+0020, U+00A0, U+1680, U+2000 to U+200A, U+2028, U+2029, U+202F, U+205F, U+3000 and U+FEFF.

`Landing.Page` is a class over the parts of the document that the handlers read and write:
- the form's field values;
- the submit button's label and disabled flag;
- the `.custom-alert` elements, in document order;
- the request bodies posted so far, and the number of requests still pending;
- the stored cookie flag and the notice's display.

The submit handler is split at its one asynchronous boundary:
- `Submit` is the synchronous part: validation, thank-you alert, form reset, button, request;
- `Settle` is the promise chain of one request, with its outcome given as a `Response`;
- `HandleSubmit` is the two in sequence.

Points where the code behaves differently from what one might expect:
- One might expect a failed request to restore the fields and show a warning. The code resets the form unconditionally before sending (js/main.js:33) and restores nothing; on failure it shows `FORM_ERROR_MESSAGE` with type `error` (js/main.js:89). `Settle` keeps the form as it is, so after a failure the form holds its defaults. The message says the information "was saved locally", but nothing in the code saves it.
- The regular expression is more permissive than "no `.` right after the `@`, no `.` at the end". Only the domain's *inner* dots count. So `a@.b.c` and `a@b.c.` are accepted, while `a@.com`, `a@com.` and `a@com` are rejected (`ExampleLeadingDotAccepted`, `ExampleTrailingDotAccepted`, `ExamplesEdgeDotsRejected`).
- The `dev` test is a plain substring test. So `devices.com` and `localhost.dev` are staging (`Config.ExamplesStaging`).

## Model

| member | source | states |
|---|---|---|
| `Email.IsValidEmail` | js/main.js:119-122 | `isValidEmail(s)` is the automaton ending in its accepting state `Tld`, and that holds exactly when `s` is `l + "@" + d`, with `l` non-empty and both parts free of whitespace and `@`, and `d` holding a `.` at an index strictly between 0 and `\|d\|-1` |
| `Email.RunMeaning` | js/main.js:120 | from each state of the automaton, the rests of the input it accepts are exactly those its position in the pattern allows; this is the induction behind the equivalence above |
| `Email.StartGoalIsShape` | js/main.js:120 | the automaton's goal for its start state, from which acceptance is read off, is exactly the shape the pattern describes |
| `Email.NoAtSignFails` | js/main.js:120 | a string with no `@` is rejected |
| `Email.TwoAtSignsFail` | js/main.js:120 | a string with two or more `@` is rejected |
| `Email.WhitespaceFails` | js/main.js:120 | a string with any whitespace character is rejected |
| `Email.DomainWithoutInnerDotFails` | js/main.js:120 | when no `.` lies strictly inside the part after the `@` (none at all, or only at its first or last position), the address is rejected |
| `Email.SplitIsUnique` | js/main.js:120 | an accepted address splits into local part and domain in exactly one way |
| `Email.ExampleAccepted` | js/main.js:120 | `alice@example.com` is accepted |
| `Email.ExampleManyDotsAccepted` | js/main.js:120 | several dots in the domain, and dots in the local part, are accepted: `first.last@mail.example.co.uk` |
| `Email.ExampleLeadingDotAccepted` | js/main.js:120 | `a@.b.c` is accepted: a dot right after the `@` does no harm when an inner dot follows |
| `Email.ExampleTrailingDotAccepted` | js/main.js:120 | `a@b.c.` is accepted: a trailing dot does no harm when an inner dot precedes it |
| `Email.ExamplesEdgeDotsRejected` | js/main.js:120 | `a@.com`, `a@com.` and `a@com` are rejected |
| `Email.ExampleEmptyLocalRejected` | js/main.js:120 | `@example.com` is rejected |
| `Email.ExampleSpaceRejected` | js/main.js:120 | `a b@example.com` is rejected |
| `Email.ExampleSecondAtRejected` | js/main.js:120 | `a@b@example.com` is rejected |
| `Config.Includes` | js/config.js:18 | `s.includes(sub)` is true exactly when `sub` occurs in `s` at some index |
| `Config.Classify` | js/config.js:14-23 | `localhost` and `127.0.0.1` exactly are development; any other hostname holding `staging` or `dev` is staging; every other hostname is production; the three cases cover every hostname and exclude each other |
| `Config.ExamplesDevelopment` | js/config.js:16-17 | `localhost` and `127.0.0.1` are development |
| `Config.ExamplesStaging` | js/config.js:18-19 | `staging.innvestai.com`, `devices.com` and `localhost.dev` are staging |
| `Config.ExamplesProduction` | js/config.js:20-21 | `innvestai.com` and `127.0.0.2` are production |
| `Config.Settings.constructor` | js/config.js:4-50 | the object literal: endpoint URL, timeout 10000, 2 retry attempts, retry delay 1000, analytics, cookie notice and form validation on, debug mode off, the UI messages and button labels, empty analytics IDs, and the classified environment |
| `Config.Settings.ApplyEnvironmentOverrides` | js/config.js:53-56 | in development, debug mode becomes true and the timeout 5000; every other field is as before; outside development nothing changes |
| `Config.Load` | js/config.js:4-56 | after loading, debug mode is on exactly in development, and the timeout is 5000 in development and 10000 elsewhere; the endpoint, the retry settings, the other flags and the UI strings keep their defaults |
| `Landing.Filled` | js/main.js:21 | the truthiness test in `!name \|\| !email`: a missing field (null) and `''` are falsy, any other string is truthy |
| `Landing.MessageOrEmpty` | js/main.js:51 | `message \|\| ''`: the field's value when the form has the field, `''` when it has none |
| `Landing.Decide` | js/main.js:14-53 | a missing or empty `name` or `email` is a missing-required rejection, whatever the email holds; otherwise an email without the shape above is a malformed-email rejection; otherwise the payload carries exactly the name, the email (which has the shape), the message or `''`, and the checkbox value |
| `Landing.Presented` | js/main.js:145-150 | `showAlert` removes the first existing alert and appends the new one; from at most one alert, exactly the new alert remains |
| `Landing.Page.Load` | js/main.js:3-6 | a loaded page has no alerts and no requests, and its cookie notice is hidden when the flag is stored and shown otherwise |
| `Landing.Page.ShowAlert` | js/main.js:145-150 | the alerts become `Presented` of the old ones; from at most one alert, exactly the new one is shown, with its message and type |
| `Landing.Page.ShowCookieNotice` | js/main.js:125-134 | with the element present, the notice is hidden when the flag is stored and shown otherwise; without the element nothing changes |
| `Landing.Page.AcceptCookies` | js/main.js:136-142 | with the element present, the flag is stored and the notice hidden; without it nothing changes |
| `Landing.Page.Reload` | js/main.js:125-134 | a reloaded page keeps the stored flag, so after `AcceptCookies` it does not show the notice again |
| `Landing.Page.Submit` | js/main.js:14-66 | on a missing field or a malformed email: the matching error alert alone, no request, and form and button untouched. Otherwise: the thank-you alert alone, the form reset to its defaults, the button labelled `SENT` and disabled, and exactly one more request whose body is the decided payload |
| `Landing.Page.Settle` | js/main.js:67-90 | a status that is not ok, a `success` that is not truthy, a thrown error and an abort all leave the single alert `FORM_ERROR_MESSAGE` of type error; a confirmed request leaves the alerts as they were; the form is not restored and one fewer request is pending |
| `Landing.Page.HandleSubmit` | js/main.js:11-90 | the whole handler. A rejected submission shows only the required-fields or the invalid-email error alert, sends nothing, and leaves the form and the button as they were. After an accepted submission the form holds its defaults, the button is `SENT` and disabled, and exactly one body was sent; the one alert left is the thank-you message when the request is confirmed, and `FORM_ERROR_MESSAGE` otherwise |

## Left out

- `fetch`, `AbortController`, the timeout timer and JSON parsing (js/main.js:56-72) are network I/O. Only how the promise chain ends is modelled, as the parameter of `Settle`. The request method, headers and `JSON.stringify` encoding are not modelled.
- All `setTimeout` scheduling is left out, because wall-clock timing has no contract here. This covers the button reset after 2 seconds (js/main.js:42-45), the slide-in, the close button and the 5-second auto-dismiss of alerts (js/main.js:213-230). So in the model an alert is never removed except by the next `showAlert`, and the button stays `SENT`.
- The debug logging (js/config.js:58-61, js/main.js:79-81, 85-87) is console output.
- The `window.INNVEST_CONFIG` export (js/config.js:64) is a global. The page holds a reference to the configuration object instead.
- `RETRY_ATTEMPTS` and `RETRY_DELAY` are modelled as values only: no code uses them, so there is no retry behaviour to model.
- The scroll-reveal `IntersectionObserver` (js/main.js:94-115) is a visual effect only.
- The alert's markup, inline styles, colours and hover listeners (js/main.js:153-208) are presentation.
- The model assumes the `emailUpdates` checkbox and the `.send-btn` button are present. Without the checkbox the handler throws at js/main.js:18, before anything happens. Without the button it throws at js/main.js:37, after the thank-you alert is shown and the form is reset (js/main.js:32-33) but before any request is sent; that partial outcome is not modelled.
- `FormData.get` can also return a `File`; the model takes field values to be strings or missing.
- Local storage is modelled as one boolean: is `cookieAccepted` set to a non-empty value.
- Dafny strings are sequences of Unicode scalar values, while JavaScript strings are UTF-16 code units. For this pattern, which has no `u` flag, a character outside the Basic Multilingual Plane becomes two code units. Neither unit is whitespace or `@`, so acceptance does not change; lone surrogates are not representable.
- The page holds only the alerts `showAlert` creates: no other `.custom-alert` element exists in the document.
