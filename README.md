# Portfolio page script — verified model

The page script `scripts/port.js` of a personal portfolio site wires up five independent
controllers. This project models the three that hold logic, with the page's elements
reduced to class sets, strings and optional values:

- **Contact form** (`validation.dfy`, `contact.dfy`).
  - `Validation.Trim` is `String.prototype.trim`. `Validation.ValidateEmail` is a hand-coded
    version of the pattern `/^[^\s@]+@[^\s@]+\.[^\s@]+$/`. `Validation.EmailPattern` states that
    pattern directly from its structure, and the two are proved to accept the same strings.
  - `Validation.ValidateForm` is `validateForm`. It returns the violated rules in check order.
    The list is proved to be the only list in check order that holds exactly the violated
    rules.
  - `Contact.Decide` is the submit listener's trim-validate-submit decision.
    `Contact.ContactForm.Submit` is the listener acting on the form. It either alerts the
    errors and leaves the form alone, or sends the trimmed data, shows a success notice and
    resets the form.
- **Mobile menu** (`menu.dfy`).
  - The state is the nav's classes, the toggle's `aria-expanded` text and the icon's classes.
  - `Menu.ToggleClicked` and `Menu.Closed` are the three listeners' transitions. The nav-link
    listener and the outside-click listener share `Closed`.
  - `Menu.AfterClick` runs one click through the listeners in bubbling order. The
    `Menu.MobileMenu` class carries the same state as fields and has one method per listener.
- **Theme toggle** (`theme.dfy`).
  - The state is the body's classes, the `theme` storage entry and the icon's classes.
  - `Theme.Initialized` is the setup step and `Theme.Clicked` the click listener.
    `Theme.ThemeToggle` holds the same state as fields.

`dom.dfy` gives the class-list operations (`add`, `remove`, `toggle`, `toggle` with a force
argument) and the text a boolean becomes in an attribute.

Behaviour of the theme toggle worth knowing, all proved about the code as written:

- Whether the body carries exactly one of `light-mode`/`dark-mode` is decided at setup.
  - A click flips both mode classes, so it keeps one mode class if there was one and keeps
    none or two if there were (`Theme.ClickedPreservesOneMode`, `Theme.ClicksPreserveOneMode`).
  - Right after setup there is exactly one mode class in these cases
    (`Theme.InitializedOneMode`): the theme is `light` and the body had no `dark-mode`; the
    theme is `dark` and the body had no `light-mode`; or the theme is anything else and the
    body already had exactly one of the two.
  - A body without mode classes and an unset, empty, `light` or `dark` entry is the
    usual case, and there the rule holds after setup and every click
    (`Theme.OneModeAfterClicks`).
  - A stored `blue` gives the body `blue-mode`, and one click then puts both mode classes
    on the body (`Theme.UnknownThemeBreaksOneMode`).
- The storage entry is read as `localStorage.getItem('theme') || 'light'`. Any non-empty
  stored string is used as the theme and an empty one reads as `light` (`Theme.SavedTheme`).
  - Setup passes `<theme>-mode` to `classList.add`, which throws on a token holding ASCII
    whitespace. A stored `dark mode` therefore stops setup before anything changes, and no
    click listener is registered (`Theme.SetupThrowsOnSpace`, `Theme.ThemeToggle.Setup`).
- Two clicks always bring back the body and icon classes, and leave the theme shown in
  storage (`Theme.DoubleClickRestoresClasses`).
  - That equals the old entry exactly when the entry already named the theme shown
    (`Theme.DoubleClickRestores`).
  - With nothing stored, two clicks leave `light` stored (`Theme.DoubleClickStoresLight`).

## Model

| member | source | states |
|---|---|---|
| Validation.IsWhitespace | scripts/port.js:82-84 | the whitespace class of `trim()` and of `\s` never holds `@` or `.` |
| Validation.AsciiWhitespaceChars | scripts/port.js:82-84 | below U+0080 the class holds exactly tab, line feed, vertical tab, form feed, carriage return and space |
| Validation.Trim | scripts/port.js:82-84 | the trimmed value has no whitespace at either end, and is empty exactly when the control held only whitespace |
| Validation.TrimSplits | scripts/port.js:82-84 | what trimming drops is whitespace before and after what it keeps |
| Validation.TrimPadding | scripts/port.js:82-84 | trimming whitespace padding around an already trimmed string gives that string, so trim is fully determined |
| Validation.TrimKeepsTrimmed | scripts/port.js:82-84 | a value with no whitespace at either end is not changed by trimming |
| Validation.TrimIdempotent | scripts/port.js:82-84 | trimming twice is trimming once |
| Validation.TrimExample | scripts/port.js:82-84 | leading spaces and a trailing newline are dropped from `"  Alice\n"` |
| Validation.ValidateEmail | scripts/port.js:117-120 | an accepted address has at least 5 characters, an `@` and a `.`, and starts with a character that is neither whitespace nor `@` |
| Validation.ValidateEmailSound | scripts/port.js:117-120 | every address the hand-coded check accepts matches `^[^\s@]+@[^\s@]+\.[^\s@]+$` |
| Validation.ValidateEmailComplete | scripts/port.js:117-120 | every address the pattern matches is accepted by the hand-coded check |
| Validation.ValidateEmailIsPattern | scripts/port.js:117-120 | the hand-coded check accepts exactly the strings the regular expression matches: no whitespace, exactly one `@`, a non-empty part before it, and after it a `.` that is neither first nor last |
| Validation.EmailRejectsExamples | scripts/port.js:117-120 | `foo`, `foo@bar` and `@bar.com` are rejected |
| Validation.EmailRejectsEdgeDots | scripts/port.js:117-120 | a dot right after the `@` or at the end of the address does not count |
| Validation.EmailRejectsSecondAt | scripts/port.js:117-120 | an address with two `@` is rejected |
| Validation.EmailAcceptsExample | scripts/port.js:117-120 | `a@b.com` is accepted |
| Validation.ValidateForm | scripts/port.js:106-115 | each message appears exactly when its rule is violated; the list is in check order (name, missing email, invalid email, message), has at most 3 entries, never holds both email messages, and is empty exactly when all fields are non-empty and the email is valid |
| Validation.ValidateFormCharacterized | scripts/port.js:106-115 | any list in check order holding exactly the violated rules is the result of `validateForm` |
| Validation.Messages | scripts/port.js:109-112 | each error is shown with its own message text, in list order |
| Contact.Trimmed | scripts/port.js:81-85 | the data handed to validation is trimmed, and a field is empty after trimming exactly when it held only whitespace |
| Contact.Decide | scripts/port.js:81-99 | the form is submitted exactly when no trimmed field is blank and the trimmed email is valid; a submission carries the trimmed data; a rejection carries a non-empty ordered error list in which whitespace-only fields count as missing |
| Contact.JoinLines | scripts/port.js:124 | no lines give the empty text, one line gives that line, and otherwise the text starts with the first line and a newline |
| Contact.JoinLinesAppend | scripts/port.js:124 | adding a line to a non-empty list adds a newline and that line to the text, so the text is built line by line |
| Contact.JoinLinesCount | scripts/port.js:124 | a non-empty list of lines without newlines gives a text with one newline fewer than there are lines |
| Contact.DecideAcceptsPadded | scripts/port.js:81-99 | `"  Alice\n"`, `a@b.com`, `Hi` is submitted as `Alice`, `a@b.com`, `Hi` |
| Contact.DecideRejectsExample | scripts/port.js:81-92 | a blank name, the email `foo` and an empty message give the name, invalid-email and message errors, in that order |
| Contact.ContactForm.Submit | scripts/port.js:78-103 | on errors the messages are alerted one per line and the fields, the sent log and the notices are unchanged; otherwise the trimmed data is sent, one success notice is added and the fields are reset to their defaults |
| Menu.ToggleClicked | scripts/port.js:35-46 | the toggle flips `active`, sets `aria-expanded` to the new value, flips both `fa-bars` and `fa-times`, and keeps every other class |
| Menu.Closed | scripts/port.js:51-57 | closing leaves `active` off, `aria-expanded` `"false"`, `fa-bars` on and `fa-times` off whatever the prior state, and keeps every other class |
| Menu.ClosedIdempotent | scripts/port.js:51-57 | closing twice is closing once |
| Menu.ClosedIsConsistent | scripts/port.js:62-70 | after a close, the attribute and the glyph agree with the menu being closed |
| Menu.ToggleKeepsConsistent | scripts/port.js:37-44 | the toggle keeps the attribute and the glyph in agreement with `active` |
| Menu.ToggleTwiceRestores | scripts/port.js:37-44 | two toggle clicks restore the menu exactly whenever `aria-expanded` mirrors `active` |
| Menu.DocumentClicked | scripts/port.js:62-71 | a click inside the nav or the toggle changes nothing; any other click closes the menu, writes `"false"` and shows the bars; other classes are kept |
| Menu.AfterClick | scripts/port.js:35-71 | a toggle click flips the menu, a nav-link or outside click leaves it closed, a click in the nav off its links changes nothing, and except for that last case `aria-expanded` then mirrors `active`; other classes are kept |
| Menu.ClickEffect | scripts/port.js:35-71 | a click on the toggle only toggles, because the outside-close skips it; a click in the nav off its links changes nothing; a nav-link click or an outside click closes |
| Menu.ClickKeepsConsistent | scripts/port.js:35-71 | a consistent menu stays consistent under any click |
| Menu.MobileMenu.OnToggleClick | scripts/port.js:35-46 | the new state is the toggle transition of the old one |
| Menu.MobileMenu.OnNavLinkClick | scripts/port.js:50-59 | the new state is the closed form of the old one |
| Menu.MobileMenu.OnDocumentClick | scripts/port.js:62-71 | closes exactly when the click landed outside both nav and toggle, and otherwise changes nothing |
| Menu.MobileMenu.Click | scripts/port.js:35-71 | runs the target's listener and then the document's, and the new state is their combined effect |
| Theme.SavedTheme | scripts/port.js:163 | an unset or empty entry reads as `light`; any other stored string is used as it is |
| Theme.SetupCompletesIff | scripts/port.js:163-164 | the `add` at setup succeeds exactly when the theme read from storage holds no ASCII whitespace |
| Theme.KnownThemesComplete | scripts/port.js:163-164 | an unset, empty, `light` or `dark` entry always gets through setup |
| Theme.SetupThrowsOnSpace | scripts/port.js:163-164 | a stored `dark mode` makes the `add` throw, and the body, storage and icon stay as they were |
| Theme.Initialized | scripts/port.js:163-171 | when the `add` throws nothing changes; otherwise setup adds `<theme>-mode` to the body, changes no other body class, gives the icon `fa-moon` exactly when the theme is `light` and `fa-sun` exactly when it is `dark`, and stores nothing |
| Theme.Clicked | scripts/port.js:173-184 | a click flips both mode classes, stores `dark` exactly when `dark-mode` is then on the body and otherwise `light`, and flips both glyphs |
| Theme.InitializedCoherent | scripts/port.js:163-171 | from a body without mode classes and a light or dark preference, setup gives exactly one mode class, and the storage and the glyph agree with it |
| Theme.ClickedKeepsCoherent | scripts/port.js:173-184 | a click keeps exactly one mode class, with the storage and the glyph in agreement |
| Theme.ClicksKeepCoherent | scripts/port.js:173-184 | the same holds after any number of clicks |
| Theme.InitializedOneMode | scripts/port.js:163-164 | exactly one mode class after setup holds exactly when: a `light` theme meets a body without `dark-mode`, a `dark` theme one without `light-mode`, or any other theme (or a throwing setup) a body that already had one |
| Theme.ClickedPreservesOneMode | scripts/port.js:174-175 | a click keeps exactly one mode class when there was one, and keeps none or two when there were |
| Theme.ClicksPreserveOneMode | scripts/port.js:173-184 | after any number of clicks, the body has exactly one mode class exactly when it had one before them |
| Theme.OneModeAfterClicks | scripts/port.js:158-184 | from a light, dark, empty or unset preference and a body without mode classes, exactly one mode class is present after setup and every click |
| Theme.DoubleClickRestoresClasses | scripts/port.js:173-184 | two clicks restore the body and icon classes, and store the theme shown |
| Theme.DoubleClickRestores | scripts/port.js:173-184 | when the stored entry names the theme shown, two clicks restore the whole state |
| Theme.DoubleClickStoresLight | scripts/port.js:173-184 | with nothing stored, two clicks leave `light` stored |
| Theme.UnknownThemeBreaksOneMode | scripts/port.js:163-183 | a stored `blue` gives `blue-mode` and neither glyph, and the first click then puts both mode classes on the body |
| Theme.ThemeToggle.Setup | scripts/port.js:158-173 | the new state is the setup transition of the old one, and the click listener is registered exactly when setup completes |
| Theme.ThemeToggle.OnClick | scripts/port.js:173-184 | with the listener registered, the new state is the click transition of the old one; without it, nothing changes |

## Left out

- Theme.ThemeToggle.Setup: when the `add` throws, the exception also leaves the `DOMContentLoaded` callback (scripts/port.js:11-15), so `setupSmoothScrolling` never runs. The menu and contact form were set up before it and are unaffected. Smooth scrolling is not part of this model.
- `initAnimations` (scripts/port.js:18-27): a single call into a third-party animation library with a constant configuration. It holds no logic.
- `setupSmoothScrolling` (scripts/port.js:187-204): element lookup and page geometry (`offsetTop - 80`). Neither is part of this model.
- Listener registration and the `DOMContentLoaded` wiring (scripts/port.js:1-16, 29-33, 74-76, 158-160). Each model starts with its elements present. When an element is missing the script registers nothing, so nothing changes.
- Timing. The 1000 ms delay of `submitForm` and the `.then`/`.catch` chain are left out. So are the 5000 ms removal of the success notice and the console log. The submission always succeeds, so `ContactForm.Submit` goes straight to its completed state. The unreachable `.catch` path (`showErrorMessage`) is not modelled.
- `alert` is recorded as the text shown. The success notice is recorded as a count. Building the notice's DOM node is not modelled.
- `IsWhitespace` is the ECMAScript WhiteSpace and LineTerminator set, used by both `trim()` and `\s`. Characters outside the Basic Multilingual Plane are single `char`s here, whereas JavaScript strings hold UTF-16 code units.
- `localStorage` is a single optional string for the `theme` key. It is shared between page loads, which is not modelled.
- `form.reset()` restores each control's default value. The defaults are a constant of the form (`ContactForm.defaults`).
