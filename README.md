# Gregório Paisagista site: a Dafny model of its behaviour

The site is a one-page marketing site for a landscaping business. It exists as a
React page (`src/App.jsx`, `src/themeUtils.js`) and as a static page driven
by `script.js`. Most of it is markup. The parts with behaviour are modelled
here:

- **Theme preference** (`Theme`). The React `ThemeProvider` reads the
  `theme` slot of the browser storage once. It applies the preference as a
  `dark`/`light` class on the document root and writes it back. `toggleTheme`
  flips it. The model is a class whose fields are the preference, the storage
  and the root class set.
- **Theme class tables** (`ThemeUtils`). `getThemeClasses` picks its dark or
  light argument. `applyTheme` is a key-preserving merge of an element's
  classes with the dark or light table.
- **WhatsApp deep link** (`UrlQuery`, `WhatsLink`, `AppLinks`, `ScriptPage`).
  Both pages build `https://wa.me/<number>?<query>` with a `URLSearchParams`
  object. The query holds `text` and then the page's non-empty UTM parameters,
  in a fixed key order. `URLSearchParams` is a class whose entry list `set`
  rewrites, following the WHATWG URL Standard. The query is serialized as in
  section 5.2 of that standard (application/x-www-form-urlencoded): entries
  joined with `&`.
- **Gallery lightbox** (`Gallery`). A small state machine over (open,
  project, image index). Its arrows step through the images cyclically.
- **Contact form** (`LeadForm`, `AppContact`, `ScriptPage`). There are two
  submit handlers:
  - The React handler checks the required fields without trimming. It then
    POSTs to the configured endpoint or hands off to a `mailto:` link.
  - The static handler trims the fields, clears the feedback text and
    disables the submit button. It then validates and routes the submission
    three ways:
    1. endpoint success;
    2. endpoint failure, on a non-ok response or a thrown error;
    3. hand-off to the mail client.

    The button is re-enabled on every exit.

  The `mailto:` link has the shape of section 2 of RFC 6068: address, then
  `subject` and `body` header fields.

Every handler records what it does in a `log` of effects:

- alert;
- feedback text;
- button disabled or enabled;
- POST request;
- form reset;
- navigation;
- opened window.

Its contract states the log in terms of a function of its inputs. Lemmas then
prove what each path does.

Parameters stand in for the outside world:

- `enc: string -> string` is the percent-encoder (`encodeURIComponent` or the
  urlencoded byte serializer).
- `NetOutcome` (`Ok`, `NotOk`, `Throw`) is how the `fetch` ends.
- The page query is a list of already-decoded `(name, value)` entries.

### The stored theme preference

Only an absent or empty `theme` slot falls back to dark
(`src/App.jsx:30-36`). Every other stored string except `"dark"` gives
light, including one that is neither `"dark"` nor `"light"`. The model does
the same (`Theme.Preference`).

## Model

| member | source | states |
|---|---|---|
| JsText.TrimStartIsSuffix | script.js:72-75 | dropping leading white space leaves a suffix that does not start with white space, and everything dropped is white space |
| JsText.TrimEndIsPrefix | script.js:72-75 | dropping trailing white space leaves a prefix that does not end with white space, and everything dropped is white space |
| JsText.TrimIsSlice | script.js:72-75 | `trim` yields the slice of the input between its leading and trailing white space; it is empty exactly when the input is all white space, otherwise it starts and ends with non-space |
| JsText.TrimIdempotent | script.js:72-75 | trimming a trimmed value changes nothing |
| JsText.Trim | script.js:72-75 | `String.prototype.trim`; its guarantees are those of `TrimIsSlice` and `TrimIdempotent` |
| JsText.KeepDigits | src/App.jsx:1222 | `replace(/\D/g, '')` keeps only digits, is the identity on an all-digit string and empty on a digit-free one |
| JsText.KeepDigitsConcat | src/App.jsx:1222 | the digit filter works character by character: it distributes over concatenation |
| UrlQuery.Get | script.js:42 | `searchParams.get` is absent exactly when no entry has the name, and otherwise is the value of an entry with that name |
| UrlQuery.GetFirst | script.js:42 | the value `get` returns is that of the first entry with the name |
| UrlQuery.SetEntry | script.js:38 | `set` leaves exactly one entry of the name, with the new value; all other names read as before; a new name is appended at the end |
| UrlQuery.SearchParams.constructor | script.js:36 | a new `URLSearchParams` has no entries |
| UrlQuery.SearchParams.Set | script.js:43 | the method rewrites the entry list as `SetEntry` says |
| UrlQuery.Serialize | script.js:45 | `searchParams.toString()`: the entries' `name=value` texts joined with `&`; read back by `SerializeSplits` |
| UrlQuery.SerializeSplits | script.js:45 | when the encoder escapes `&` and `=`, the serialized query splits back into one piece per entry, each into encoded name and value |
| WhatsLink.MessageOr | script.js:37 | `message \|\| fallback`: an absent or empty message gives the fallback, any other message is kept |
| WhatsLink.UtmPairs | script.js:40-44 | the UTM entries copied from the page, in key order; specified by `UtmPairsCopies`, `UtmPairsOnlyKeys` and `UtmPairsInOrder` |
| WhatsLink.UtmPairsCopies | script.js:40-44 | a UTM key is copied, with the page's first value for it, exactly when that value is non-empty; every copied entry is an entry of the page |
| WhatsLink.UtmPairsOnlyKeys | script.js:41-43 | no name outside the five UTM keys is ever produced |
| WhatsLink.UtmPairsInOrder | script.js:41 | the copied names appear in the fixed key order |
| WhatsLink.UtmKeysFresh | script.js:41 | the five UTM keys are distinct from each other and from `text`, so each `set` appends |
| WhatsLink.BuildWith | script.js:35-45 | the loop of `set` calls builds base, number, `?` and the serialized `text` entry followed by the copied UTM entries |
| WhatsLink.BuildLink | script.js:34-46 | `buildWhatsAppUrl`'s builder produces the deep link |
| WhatsLink.DeepLink | script.js:34-46 | the deep link both builders produce; its query is read back by `DeepLinkQuery` |
| WhatsLink.DeepLinkQuery | script.js:45 | the link's query reads back: first `text` with its value, then each copied UTM entry, in order |
| WhatsLink.AdsSpringExample | script.js:40-44 | a page with `utm_source=ads` and `utm_campaign=spring` copies exactly those two, in that order |
| AppLinks.BuildWhatsUrl | src/App.jsx:114-123 | the React builder gives the deep link to the configured number with fallback 'Olá, gostaria de um orçamento.' |
| AppLinks.TelHref | src/App.jsx:1222 | the `tel:` link is `tel:` followed by exactly the digits of the configured phone, in order, and nothing else |
| AppLinks.TelHrefIgnoresPunctuation | src/App.jsx:1222 | punctuation between parts of the phone does not change the link, and a phone written as its digits alone gives the same link |
| Theme.Preference | src/App.jsx:26-37 | an absent or empty slot gives dark, exactly "dark" gives dark, any other non-empty string gives light |
| Theme.PreferenceReadsBack | src/App.jsx:30-32 | a preference written by the apply effect loads back as itself |
| Theme.Marked | src/App.jsx:41-47 | after applying, exactly one of `dark`/`light` is on the root, the one that matches; other classes are untouched |
| Theme.ReapplyChangesNothing | src/App.jsx:39-50 | re-applying the preference in force leaves root classes and storage unchanged |
| Theme.ToggleTwiceRestores | src/App.jsx:52-54 | two toggles from an agreeing state restore the root classes and the storage |
| Theme.ThemeProvider.constructor | src/App.jsx:25-50 | mounting settles on the loaded preference, applies it, and leaves marker and stored value in agreement |
| Theme.ThemeProvider.Load | src/App.jsx:28-37 | the load effect sets the state to the preference of the stored slot |
| Theme.ThemeProvider.Apply | src/App.jsx:39-50 | the apply effect marks the root and stores the matching string, so marker and storage agree |
| Theme.ThemeProvider.Toggle | src/App.jsx:52-54 | toggling negates the state and re-applies it |
| Theme.ToggleTwice | src/App.jsx:52-54 | two toggles leave state, root classes and storage exactly as they were |
| ThemeUtils.GetThemeClasses | src/themeUtils.js:40-42 | the dark argument when dark, the light one otherwise |
| ThemeUtils.Merge | src/themeUtils.js:73-80 | the result has exactly the element's keys; a key with a non-empty table entry gets `classes + " " + entry`, any other key keeps its classes |
| ThemeUtils.ApplyTheme | src/themeUtils.js:70-81 | the merge with the dark table when dark and the light table otherwise, with the same key and value guarantees |
| ThemeUtils.TablesCoverThemeKeys | src/themeUtils.js:45-67 | both tables have the same nine keys, each with a non-empty entry |
| ThemeUtils.AugmentedKeysIndependentOfTheme | src/themeUtils.js:45-67 | which element keys are augmented does not depend on the theme |
| ThemeUtils.StripUndoesMerge | src/themeUtils.js:73-80 | removing the appended table class from each merged value gives back the element's classes |
| ThemeUtils.StripUndoesApplyTheme | src/themeUtils.js:70-81 | the same round trip for `applyTheme` under either theme |
| Gallery.NextIndex | src/App.jsx:864-870 | for `0 <= i < n` the next index stays in range and is `(i + 1) mod n`: the last wraps to 0 |
| Gallery.PrevIndex | src/App.jsx:872-878 | for `0 <= i < n` the previous index stays in range and is `(i + n - 1) mod n`: 0 wraps to the last |
| Gallery.PrevUndoesNext | src/App.jsx:864-878 | prev after next is the identity |
| Gallery.NextUndoesPrev | src/App.jsx:864-878 | next after prev is the identity |
| Gallery.NextTimesIsModular | src/App.jsx:864-870 | `k` presses of next from `i` land on `(i + k) mod n` |
| Gallery.FullCycleReturns | src/App.jsx:864-870 | `n` presses of next come back to the starting image |
| Gallery.Lightbox.constructor | src/App.jsx:785-787 | the lightbox starts closed, with no project and index 0 |
| Gallery.Lightbox.Open | src/App.jsx:852-856 | opening sets the project, the index (default 0) and open; with an index in range the state is consistent |
| Gallery.Lightbox.Close | src/App.jsx:858-862 | closing resets to closed, no project, index 0 |
| Gallery.Lightbox.Next | src/App.jsx:864-870 | with a project, the index steps forward cyclically and stays valid; without one nothing changes |
| Gallery.Lightbox.Prev | src/App.jsx:872-878 | with a project, the index steps back cyclically and stays valid; without one nothing changes |
| LeadForm.Complete | script.js:80 | the required-field check of both handlers: name, e-mail and message non-empty, the phone never consulted (see `PhoneNeverRequired`) |
| LeadForm.MailBodyIsLines | script.js:100 | the e-mail body is the lines Nome, E-mail, Telefone, an empty line, Mensagem: and the message, joined with line breaks |
| LeadForm.MailBodyReadsBack | script.js:100 | when name, e-mail and phone are single-line, the body splits back into the five labelled lines followed by the lines of the (possibly multi-line) message; a one-line message gives exactly the six lines |
| LeadForm.MailtoUrl | script.js:99-101 | the hand-off link: `mailto:`, the address, then the encoded subject and body; its body is described by `MailBodyIsLines` and `MailBodyReadsBack` |
| AppContact.Payload | src/App.jsx:1128 | the POST body is the form's entries plus `page`, which overrides any entry of that name |
| AppContact.SubmitEffects | src/App.jsx:1122-1139 | an incomplete form only raises the validation alert; with an endpoint a complete one gives exactly the POST, then the success alert, then the reset on `Ok`, and exactly the POST and then the failure alert on a non-ok response or a thrown error; without an endpoint it navigates exactly once to the hand-off link |
| AppContact.PhoneNeverRequired | src/App.jsx:1122 | the phone never decides whether the form is complete |
| AppContact.ShippedHandsOff | src/App.jsx:11 | with the shipped configuration (empty endpoint) a complete form always goes to the mail client |
| AppContact.ContactSection.Reset | src/App.jsx:1131 | `form.reset()` restores the inputs' initial values |
| AppContact.ContactSection.Submit | src/App.jsx:1117-1140 | the handler's effects are those `SubmitEffects` lists; the inputs are reset exactly when that list holds a reset |
| ScriptPage.CtaMessage | script.js:52-53 | the CTA message is the greeting with the trimmed name when that is non-empty, otherwise none |
| ScriptPage.CtaLinkText | script.js:52-54 | the link's text is that greeting for a real name and the page's fallback otherwise |
| ScriptPage.Payload | script.js:71-77 | the data has the four field keys and `page`; each field is the trimmed input ('' when missing), which trimming again leaves alone |
| ScriptPage.PayloadComplete | script.js:80 | the trimmed data passes validation exactly when name, e-mail and message each hold a non-space character |
| ScriptPage.WorkFacts | script.js:80-105 | between disabling and re-enabling: exactly the validation message, or one POST of the data to the endpoint with reset only on `Ok`, or one navigation to the hand-off link; the feedback ends on that outcome's text; the part has one, three (success) or two effects, the routed paths speak their outcome's text right after the POST or navigation, and the part never alerts, opens a window or touches the button |
| ScriptPage.SubmitEffects | script.js:62-109 | the static handler's effects, fixed effect by effect by `SubmitEffectsFacts`, `WorkFacts` and `ButtonGuardsWork` |
| ScriptPage.SubmitEffectsShaped | script.js:62-109 | the feedback is cleared first, the list has the middle part's length plus one for the clearing and two for a button, and it holds no alert and no opened window |
| ScriptPage.SubmitEffectsFacts | script.js:62-109 | without a feedback element nothing happens; otherwise the feedback is cleared first, the button is disabled second and re-enabled last, POSTs, navigations and resets are as above, the POST carries the trimmed data to the endpoint and the navigation goes to the hand-off link, and the feedback ends on the outcome's text whatever it said before; the list is the middle part plus the clearing and, with a button, the two button changes, with no alert and no opened window |
| ScriptPage.ButtonGuardsWork | script.js:69-108 | whenever the handler POSTs or navigates the button is disabled, whatever its state before, and it ends enabled |
| ScriptPage.Page.constructor | script.js:4-7 | the page reads `data-whatsapp`, `data-form-endpoint` and `data-email`, each '' when missing |
| ScriptPage.Page.BuildWhatsAppUrl | script.js:34-46 | the deep link to the page's number with fallback 'Olá, gostaria de falar com a equipe do Gregório Paisagista.' |
| ScriptPage.Page.ClickWhatsApp | script.js:49-55 | a CTA click opens exactly one window, on the deep link carrying the CTA message for the current name input |
| ScriptPage.Page.Begin | script.js:66-69 | the handler clears the feedback and disables the button, if any |
| ScriptPage.Page.Route | script.js:87-105 | with an endpoint: one POST, then the success text and a reset on `Ok`, or the failure text; without: one navigation to the hand-off link, then the hand-off text |
| ScriptPage.Page.Process | script.js:79-108 | validation or routing, then the button re-enabled, on every path |
| ScriptPage.Page.Reset | script.js:96 | `form.reset()` restores the inputs' initial values |
| ScriptPage.Page.Submit | script.js:62-109 | the log grows by `SubmitEffects` of the trimmed data; the form is reset only after a successful POST; the feedback ends on the outcome's text and the button ends enabled |

## Left out

- Markup, framer-motion animations, Helmet/SEO tags, JSON-LD and the static
  content arrays: presentation and data, no behaviour.
- `tailwind.config.js` and `src/ThemePreview.jsx`: build configuration, and a
  component that only calls `toggleTheme`.
- React effect scheduling. On mount the apply effect also runs once for the
  initial dark state before the loaded value arrives. When the loaded
  preference is light, the second run overwrites that write; otherwise it
  already is the settled value. `Theme.ThemeProvider.constructor` gives the
  settled state only.
- The CTA's name lookup. The call-to-action reads the element with id `nome`
  anywhere in the document (`script.js:52`), and the submit handler reads
  the form's control named `nome` (`script.js:72`). The model takes them to
  be the same input: both read `fields["nome"]` of `ScriptPage.Page`.
- URL parsing and percent-encoding (`new URL`, `URLSearchParams` decoding,
  `encodeURIComponent`, the urlencoded byte serializer). The query arrives
  decoded and the encoder is the parameter `enc`.
- `JSON.stringify` of the POST body: the request records the body as a map,
  not its text or key order.
- The real `fetch`, `localStorage`, `classList`, `alert`, `window.open` and
  `window.location`. They are replaced by fields, parameters and logged
  effects.
- The mail-client hand-off does not change the page state in the model; the
  navigation is only logged.
- Scroll reveal (`script.js:113-121`), smooth scrolling (`script.js:21-31`)
  and the footer year (`script.js:17-18`): DOM event plumbing.
- The contact text update (`script.js:10-14`) and `data-phone`: they only fill
  page text.
- The `themeClasses` object (`src/themeUtils.js:2-37`): a constant table that
  no modelled operation reads.
- JavaScript prototype lookups in `applyTheme` (a key named `constructor`):
  the theme tables are finite maps.
- The concrete `tel:` string of the shipped phone number is not computed;
  `AppLinks.TelHref` states the link for any phone.
- Interleaving during a submission. Each submission is modelled as one
  atomic step: the `await fetch` (`script.js:89`, `src/App.jsx:1128`) is not a
  point where another submit or an edit of the inputs can happen. So the
  model does not show what the static page's disabled button protects
  against, and `ScriptPage.ButtonGuardsWork` speaks only of one submission
  on its own. The React form has no such guard and can POST twice; the model
  does not show that either.
- Encoder failure. `enc` is a total function, but `encodeURIComponent` throws
  `URIError` on a lone surrogate. The static page would then show its
  failure text through its `catch` and not navigate (`script.js:99-105`);
  the React handler would reject with no alert (`src/App.jsx:1136-1137`).
  Dafny strings hold whole characters, so such input cannot be written here.
- A `FormData` value that is a file rather than text: fields are strings.
