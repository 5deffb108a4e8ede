# Portfolio page interactivity, modelled in Dafny

This project models the client-side script of a personal portfolio page
(`script.js`). It covers:

- the contact form: three validators, the `.form-error` slots they fill or clear, and the submit handler;
- the light/dark theme toggle and its stored preference;
- the mobile navigation menu, with its hamburger, outside-click and Escape handlers;
- smooth scrolling from the nav links and from the hero buttons;
- the header background that changes past a scroll threshold.

Modules, one per concern:

- `Wrappers`: `Option`, for host lookups that can return nothing.
- `Text`: the ECMAScript whitespace set shared by `String.prototype.trim` and `\s`, and `Trim` with a characterisation that uniquely determines it.
- `EmailPattern`: the address pattern `/^[^\s@]+@[^\s@]+\.[^\s@]+$/`. It is modelled as a deterministic automaton and proved equal to two declarative descriptions of the language it accepts.
- `Validation`: `validateName`, `validateEmail` and `validateMessage`, each a function from the raw input value to a `Verdict` that carries the exact message.
- `ContactForm`: the error slots (`ErrorSlot`) and the form (`Form`) as classes whose methods update them. Each method is proved against the verdict functions.
- `Theme`: the theme functions and the `ThemeToggle` class.
- `Navigation`:
  - menu-state functions, and lemmas about every sequence of menu events;
  - the `MobileMenu` class;
  - the `Page` class, which keeps a log of `window.scrollTo` targets and dispatches a click to the clicked element's handler and then to the document listener;
  - the header's scroll handler.

Modelling decisions:

- `length` is JavaScript's count of UTF-16 code units (`Validation.JsLength`): a character outside the Basic Multilingual Plane counts twice. This affects the two-character minimum for names and the 10 and 1000 bounds for messages.
- The two regular expressions carry no `u` flag, so they work on code units. A surrogate is neither an ASCII letter, whitespace, `@` nor `.`. So the patterns accept exactly the same strings whether they are read per code unit or per character, and the model reads them per character.
- `contactForm.reset()` returns each input to its default value. The markup is not part of this model, so the defaults are taken to be empty.
- The success banner is modelled as a count of banners inserted.
- `document.querySelector(href)` is modelled as a map (`Page.sections`) from each selector that finds an element to that element's `offsetTop`. A selector missing from the map finds nothing.
- The header height is a parameter of each click, because it is read afresh on every click.
- The page's markup is not part of this model, and three facts about it are assumptions:
  - nav links lie inside `.nav-menu`;
  - hero buttons lie outside both the menu and the hamburger;
  - `#nameError`, `#emailError` and `#messageError` carry the class `form-error` (`ContactForm.Form.Valid`).

  With the first two, a hero-button click that bubbles to the document closes the menu, though the hero button's own handler never touches it.
- The message check accepts 1000 code units. Line 147 rejects only lengths above 1000, although the message reads "less than 1000". The model follows the code: `Validation.MessageUpperBoundInclusive`.
- The name check accepts ASCII letters and every `\s` character, not only spaces. This includes tabs, line breaks and no-break spaces inside the trimmed name.

## Model

| member | source | states |
|---|---|---|
| Text.IsWs | script.js:102 | The ECMAScript WhiteSpace and LineTerminator characters, which `trim` removes and `\s` matches. It is characterised through `Text.TrimSpec` and `EmailPattern.MatchesShape`. |
| Text.Trim | script.js:102 | `trim` never lengthens its input. It yields the empty string exactly when the input is all whitespace. `Text.TrimSpec` and `Text.TrimUnique` pin it down completely. |
| Text.TrimSpec | script.js:102 | `trim` returns a contiguous slice of its input. Everything before and after the slice is whitespace, and the slice is empty or starts and ends with non-whitespace. |
| Text.TrimUnique | script.js:102 | Any slice with whitespace all around it and non-whitespace at both of its ends is exactly what `trim` returns. |
| Text.TrimIdempotent | script.js:102 | Trimming a trimmed value changes nothing. |
| Text.TrimAbsorbs | script.js:102 | Whitespace added on either side of a value does not change its trimmed form. |
| EmailPattern.Matches | script.js:129 | `emailRegex.test(email)`. Its accept set is proved by `EmailPattern.MatchesShape` and `EmailPattern.ShapeIsRegex`. |
| EmailPattern.RunStart | script.js:122 | The automaton accepts a string exactly when it splits at an `@` after a non-empty local part. The local part has no whitespace or `@`. The domain is clean and has a dot with a character on each side. |
| EmailPattern.MatchesShape | script.js:122 | The pattern accepts exactly `local@domain` where `local` is non-empty, neither part holds whitespace or `@`, and the domain has a dot that is neither its first nor its last character. |
| EmailPattern.InnerDotSplit | script.js:122 | A clean domain has such a dot exactly when it is `host.tld` with both pieces non-empty and clean. |
| EmailPattern.ShapeIsRegex | script.js:122 | The accepted language equals the expression read group by group: `[^\s@]+` `@` `[^\s@]+` `.` `[^\s@]+`. |
| EmailPattern.MatchesOneAt | script.js:122 | An accepted address has no whitespace and exactly one `@`. The `@` is neither the first nor the last character. |
| Validation.JsLength | script.js:105 | The UTF-16 length lies between the character count and twice it. It equals the character count exactly when no character is astral. |
| Validation.NamePattern | script.js:110 | `/^[a-zA-Z\s]+$/.test(name)`: non-empty, ASCII letters and whitespace only. `Validation.NameVerdict` states its role. |
| Validation.NameVerdict | script.js:101-117 | The name passes if and only if its trimmed form is at least 2 code units long and made only of ASCII letters and whitespace. A name that is too short gets the length message, which takes precedence. Any other failure gets the letters-and-spaces message. |
| Validation.EmailVerdict | script.js:119-136 | The "required" message comes exactly when the trimmed value is empty. The value passes if and only if its trimmed form has the address shape. Any other failure gets the "valid email" message. |
| Validation.MessageVerdict | script.js:138-154 | The message passes if and only if its trimmed UTF-16 length is between 10 and 1000, both included. Below 10 gets the too-short message; above 1000 gets the too-long message. |
| Validation.VerdictsIgnoreSurroundingWs | script.js:101-154 | All three verdicts are unchanged by whitespace around the input. |
| Validation.SameTrimSameVerdicts | script.js:101-154 | Two inputs that trim alike get the same three verdicts. |
| Validation.PassingNameIsLettered | script.js:101-117 | An accepted name has at least two characters and begins and ends with an ASCII letter. |
| Validation.MessageUpperBoundInclusive | script.js:147-153 | A trimmed message of exactly 1000 code units is accepted. |
| Validation.PassingEmailHasOneAt | script.js:119-136 | An accepted address, once trimmed, has no whitespace and a single `@` that is neither its first nor its last character. |
| ContactForm.ErrorSlot.Show | script.js:156-160 | `showError`: the slot shows the given message. |
| ContactForm.ErrorSlot.Clear | script.js:162-166 | `clearError`: the slot is emptied and hidden. |
| ContactForm.ErrorSlot.Display | script.js:105-116 | A validator's last step: a failing verdict's message is shown, and a passing verdict clears the slot. |
| ContactForm.Form.constructor | script.js:75-78 | A form with its three field slots, distinct and among the page's `.form-error` elements, all empty and hidden. |
| ContactForm.Form.ValidateName | script.js:101-117 | The name validator and blur handler. It returns true exactly when `NameVerdict` passes, leaves the name slot reflecting that verdict, and changes nothing else. |
| ContactForm.Form.ValidateEmail | script.js:119-136 | The email validator and blur handler. It returns true exactly when `EmailVerdict` passes, leaves the email slot reflecting that verdict, and changes nothing else. |
| ContactForm.Form.ValidateMessage | script.js:138-154 | The message validator and blur handler. It returns true exactly when `MessageVerdict` passes, leaves the message slot reflecting that verdict, and changes nothing else. |
| ContactForm.Form.ClearErrors | script.js:168-171 | `clearErrors`: every `.form-error` slot is empty and hidden, and the form's own fields are unchanged. |
| ContactForm.Form.ValidateAll | script.js:89-91 | All three validators run, without short-circuiting. The result is true exactly when all three pass, and each slot reflects its own verdict. |
| ContactForm.Form.Succeed | script.js:93-98 | On success, one more banner, all inputs reset to empty, and every slot cleared. |
| ContactForm.Form.Submit | script.js:86-99 | The submission goes through exactly when all three submitted values pass, and each field slot reflects its verdict on the submitted value. On success there is one more banner, the inputs are empty and every slot is cleared. Otherwise the inputs, the banner count and all other slots are unchanged. |
| Theme.InitialTheme | script.js:11 | A stored non-empty value is applied as it is. An absent or empty one gives `light`. The result is never empty. |
| Theme.Toggled | script.js:16-17 | A click always yields `light` or `dark`, and yields `light` exactly when the current theme is `dark`. |
| Theme.IconFor | script.js:24-26 | The sun glyph exactly for the dark theme, the moon glyph otherwise. |
| Theme.ToggleTwice | script.js:15-22 | Two clicks restore `light` or `dark`. |
| Theme.ToggleThenTwice | script.js:15-22 | After the first click, the theme alternates between `light` and `dark`, whatever the starting attribute. |
| Theme.ThemeToggle.constructor | script.js:10-13 | At start-up the theme is the initial theme from storage, storage is not written, and the glyph matches the theme. |
| Theme.ThemeToggle.Click | script.js:15-22 | A click applies the toggled theme, stores it, and keeps the glyph matching the theme. |
| Theme.ClickTwice | script.js:15-22 | Two clicks on a `light` or `dark` page restore the theme and its glyph, and leave that theme stored. |
| Navigation.Toggle | script.js:57-60 | The hamburger flips each `active` flag on its own. The two flags stay equal exactly when they were equal. |
| Navigation.AfterKey | script.js:285-289 | Escape closes the menu. Any other key leaves it unchanged. |
| Navigation.AfterDocumentClick | script.js:68-72 | A click outside both the hamburger and the menu closes the menu. A click inside either leaves it unchanged. |
| Navigation.AfterNavLink | script.js:38-49 | A nav link closes the menu exactly when its target resolves. |
| Navigation.ToggleTwice | script.js:57-60 | Two hamburger clicks restore the menu state. |
| Navigation.CloseIdempotent | script.js:62-65 | Closing an already closed menu leaves it closed, from every handler that closes it. |
| Navigation.ReplayAppend | script.js:57-72 | Replaying a sequence of events followed by one more event is the replay followed by that event's handler. |
| Navigation.ReplayKeepsInSync | script.js:57-72 | From a state where the two `active` flags agree, they agree after any sequence of clicks, key presses and nav-link clicks. |
| Navigation.TogglesKeepOutOfSync | script.js:57-60 | Flags that disagree go on disagreeing under any number of hamburger clicks. Only a closing handler brings them back together. |
| Navigation.EscapeEndsClosed | script.js:285-289 | Whatever happened before, the menu is closed after Escape. |
| Navigation.MobileMenu.constructor | script.js:54-55 | On page load neither element is active. |
| Navigation.MobileMenu.HamburgerClick | script.js:57-60 | The new state is `Toggle` of the old one. |
| Navigation.MobileMenu.Close | script.js:62-65 | `closeMobileMenu`: both flags are cleared. |
| Navigation.MobileMenu.KeyDown | script.js:285-289 | The new state is `AfterKey` of the old one. |
| Navigation.MobileMenu.DocumentClick | script.js:68-72 | The new state is `AfterDocumentClick` of the old one. |
| Navigation.ScrollTop | script.js:39-40 | The scroll target plus the header height is the section's `offsetTop`, so the section rests just below the fixed header. |
| Navigation.Page.constructor | script.js:54-55 | A page with the menu closed and nothing scrolled yet. |
| Navigation.Page.NavLinkClick | script.js:31-51 | The default navigation is always cancelled. A resolving `href` adds exactly one scroll, to the section less the header height, and closes the menu. Otherwise neither the scroll log nor the menu changes. |
| Navigation.StartsWithHash | script.js:255 | `href.startsWith('#')`. `Navigation.Page.HeroButtonClick` states that the default is cancelled exactly when it holds. |
| Navigation.Page.HeroButtonClick | script.js:252-269 | The default is cancelled exactly for an `href` that starts with `#`. In that case, and only when the target resolves, exactly one scroll is added. The menu is untouched. |
| Navigation.Page.Click | script.js:31-269 | The nav-link, hamburger and document handlers (lines 31-72) and the hero-button handler (lines 252-269), each followed by the document listener as the click bubbles. The hamburger toggles the menu. A nav link scrolls and closes it exactly when its target resolves. A hero button adds one scroll exactly when its `href` starts with `#` and resolves, and the menu then closes. A click elsewhere outside the menu closes it without scrolling. A click elsewhere inside the menu changes nothing. |
| Navigation.HeaderBackground | script.js:204-210 | The darker background exactly when the page has scrolled more than 100 pixels, and the lighter one otherwise. |
| Navigation.Header.OnScroll | script.js:204-210 | After a scroll event the header's background is `HeaderBackground` of the offset. |

## Left out

- The markup is assumed to be as listed above: nav links inside `.nav-menu`, hero buttons outside the menu and the hamburger, and the three field error elements among the `.form-error` elements. Markup that breaks these assumptions is not modelled.
- DOM lookups (`getElementById`, `querySelector`, `querySelectorAll`) are taken to succeed. The model does not capture a missing element making a handler throw.
- The border colour that `showError` and `clearError` set on the field's input is not modelled; only the slot's text and visibility are.
- The success banner's markup, its insertion point and its removal after 5 seconds (`setTimeout`) are left out. It is modelled as a count of banners inserted.
- `contactForm.reset()` restores the markup's default values. Those are not part of this model, so they are taken to be empty.
- `localStorage` is the `stored` field. Storage that is unavailable or throws is not modelled.
- A nav link's `href` is taken as a string. A link without one (`null`) behaves like a selector that resolves nothing.
- A selector that `querySelector` rejects as invalid throws after `preventDefault`. The model treats it as a selector that resolves nothing, which leaves the same state.
- `window.scrollTo` is recorded without smooth-scroll animation, and without the browser clamping the target to the scrollable range.
- Pixel values (`offsetTop`, `offsetHeight`, `scrollY`) are integers. `scrollY` can be fractional in a browser.
- The debounced scroll listener (lines 273-281) does no work once its timer fires; timers are not modelled.
- The following are presentation only and are not modelled:
  - the IntersectionObserver fade-in of service cards;
  - the button hover transforms;
  - the skip-to-content link;
  - the skip link's focus and blur styles;
  - console output.
- Clicks on targets other than the hamburger, the menu, nav links and hero buttons (the theme toggle, for one) are modelled only by their effect on the menu, through `ClickTarget.Elsewhere`.
