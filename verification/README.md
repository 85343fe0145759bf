# Registration form: validation schema and step controller

This project models the core of a two-step sign-up form:

- **The registration schema** (`src/lib/validators/registerSchema.ts`). It has one rule per field
  (`email`, `name`, `password`, `passwordCheck`, `year`) and an object-level refinement that
  reports `password !== passwordCheck` on `passwordCheck`. The form's resolver turns the schema's
  list of issues into one message per field. Module `RegisterSchema` models this with pure
  functions. The password regular expression is written out literally: three look-aheads from the
  start, then `.{8,15}$`. A lemma then proves what the expression accepts.
- **The form controller** (`src/components/RegisterForm.tsx`). `formStep` is 0 or 1 and starts at 0.
  The advance handler moves to step 1 only when `email`, `name`, `password` and `passwordCheck`
  are all dirty and not invalid. The back button returns to step 0. Releasing Enter runs the
  advance handler. The submit control exists only at step 1: it validates the whole schema and,
  when that passes, raises the success notification. Module `RegisterForm` models the mutable
  state as the class `Form`. The year choices, the panel offsets and the visible controls are
  pure functions.
- **`Decimal`** models `Number.prototype.toString()` for whole numbers below 2^53, together with
  its inverse parse. The year choices are rendered with it.

The e-mail syntax check belongs to the validation library, so its definition is not visible
here. Every operation that needs it takes it as a parameter `isEmail: string -> bool`.

The model follows the code at three points where its behaviour is easy to misread:

- `year` accepts every present string, `""` included. Only a missing value gets the
  required message.
- The password character class is `! @ # $ % ^ * + = -`. The format message lists
  `! @ # $ % & * ?`, but `&` and `?` do not satisfy the symbol requirement. So a confirmation
  such as `Abc12345?` gets the format message on `passwordCheck`, not the mismatch message.
- No keystroke-driven mismatch check, no submission-status flag, no navigation after submission
  and no pluggable submission effect exist in the code. None of them is modelled.

## Model

| member | source | states |
|---|---|---|
| `Decimal.FromNat` | src/components/RegisterForm.tsx:243 | the rendered numeral is non-empty, all decimal digits, without a leading zero, one digit exactly below 10 |
| `Decimal.ToNatFromNat` | src/components/RegisterForm.tsx:243 | parsing the rendered numeral gives the number back |
| `Decimal.FromNatInjective` | src/components/RegisterForm.tsx:243 | distinct numbers render to distinct strings |
| `RegisterSchema.PasswordPatternMeaning` | src/lib/validators/registerSchema.ts:20-23 | the literal pattern accepts a string iff it has 8 to 15 characters, no line terminator, and at least one ASCII letter, one digit and one of `! @ # $ % ^ * + = -` |
| `RegisterSchema.FormatMessageNamesSymbols` | src/lib/validators/registerSchema.ts:22 | the format message names `&` and `?` among the symbols |
| `RegisterSchema.Text` | src/lib/validators/registerSchema.ts:5-38 | the nine message strings verbatim; specified by `FormatMessageNamesSymbols` |
| `RegisterSchema.PasswordPattern` | src/lib/validators/registerSchema.ts:21 | the regular expression read literally; specified by `PasswordPatternMeaning` |
| `RegisterSchema.MessageSymbolsOutsideClass` | src/lib/validators/registerSchema.ts:21-22 | `&` and `?`, named in the message, are not in the symbol class; passwords that rely on them are rejected |
| `RegisterSchema.SamplePasswordMatches` | src/lib/validators/registerSchema.ts:21 | `Abc12345!` satisfies the pattern |
| `RegisterSchema.EmailIssues` | src/lib/validators/registerSchema.ts:5-12 | an empty address gets the "enter an e-mail" message first; a non-empty one passes iff the e-mail check accepts it |
| `RegisterSchema.EmailRule` | src/lib/validators/registerSchema.ts:5-12 | the empty address is reported as missing; a non-empty address fails only with the format message, and only when the e-mail check rejects it |
| `RegisterSchema.NameIssues` | src/lib/validators/registerSchema.ts:13-16 | the `name` checks in declaration order; specified by `NameRule` |
| `RegisterSchema.NameRule` | src/lib/validators/registerSchema.ts:13-16 | `name` passes iff its length is 3..10; shorter gets only the min(3) message, longer only the max(10) message |
| `RegisterSchema.PatternImpliesNonEmpty` | src/lib/validators/registerSchema.ts:19-21 | every string the pattern accepts is non-empty (at least 8 characters) |
| `RegisterSchema.PasswordIssues` | src/lib/validators/registerSchema.ts:17-23 | the `password` checks in declaration order; specified by `PasswordRule` |
| `RegisterSchema.PasswordRule` | src/lib/validators/registerSchema.ts:17-23 | `password` passes iff the pattern accepts it; `""` gets the required message then the format message; a non-empty value gets at most the format message |
| `RegisterSchema.PasswordCheckIssues` | src/lib/validators/registerSchema.ts:24-30 | the `passwordCheck` checks in declaration order; specified by `PasswordCheckSameRule` |
| `RegisterSchema.PasswordCheckSameRule` | src/lib/validators/registerSchema.ts:24-30 | `passwordCheck` passes exactly when `password` would, with identical messages except for the empty value |
| `RegisterSchema.YearIssues` | src/lib/validators/registerSchema.ts:31-33 | the `year` check; specified by `YearRule` |
| `RegisterSchema.RefinementRuns` | src/lib/validators/registerSchema.ts:31-35 | the refinement is evaluated unless a missing `year` aborted the object parse; used by `PasswordCheckErrorInputs` |
| `RegisterSchema.MismatchIssues` | src/lib/validators/registerSchema.ts:35-38 | the equality refinement's issue on `passwordCheck`; specified by `MismatchOnPasswordCheckOnly` and `IssuesOfField` |
| `RegisterSchema.Issues` | src/lib/validators/registerSchema.ts:3-38 | the issue list of one parse, fields in key order and the refinement last; specified by `IssuesOfField` |
| `RegisterSchema.YearRule` | src/lib/validators/registerSchema.ts:31-33 | `year` passes iff present, `""` included; a missing year gets only the required message |
| `RegisterSchema.FirstErrors` | src/components/RegisterForm.tsx:44 | the resolver's error object, first issue per path; specified by `FirstErrorsAreFirstMessages` |
| `RegisterSchema.Validate` | src/lib/validators/registerSchema.ts:3-38 | the schema as the resolver applies it; specified by `ValidateSucceedsIff`, `MismatchOnPasswordCheckOnly` and `ErrorForField` |
| `RegisterSchema.ErrorFor` | src/lib/validators/registerSchema.ts:3-38 | the message shown under one field after validating; specified by `ErrorForField`, `ErrorIsLocal` and `PasswordErrorIsOwn` |
| `RegisterSchema.FirstErrorsAreFirstMessages` | src/components/RegisterForm.tsx:44 | the resolver's error object has an entry for a field iff some issue concerns it, holding the first such message |
| `RegisterSchema.IssuesOfField` | src/lib/validators/registerSchema.ts:3-38 | the issues a parse reports on a field are exactly that field's own failed checks, followed for `passwordCheck` by the mismatch |
| `RegisterSchema.ErrorForField` | src/lib/validators/registerSchema.ts:3-38 | errors are keyed by field name; the message shown under a field is the first failure of its own checks, or the mismatch for `passwordCheck` |
| `RegisterSchema.ValidateSucceedsIff` | src/lib/validators/registerSchema.ts:3-38 | validation succeeds iff every field passes its own rule and `password == passwordCheck`, and it then returns the draft unchanged |
| `RegisterSchema.MismatchOnPasswordCheckOnly` | src/lib/validators/registerSchema.ts:35-38 | with every field passing but the passwords differing, the only error is the mismatch, keyed to `passwordCheck` |
| `RegisterSchema.PasswordErrorIsOwn` | src/lib/validators/registerSchema.ts:17-38 | the message under `password` is decided by its own rule and is never the mismatch |
| `RegisterSchema.ErrorIsLocal` | src/lib/validators/registerSchema.ts:3-33 | apart from `passwordCheck`, a field's message depends only on that field's value |
| `RegisterSchema.PasswordCheckErrorInputs` | src/lib/validators/registerSchema.ts:24-38 | the message under `passwordCheck` depends only on the two passwords and on whether a year is present |
| `RegisterSchema.AcceptsCompleteDraft` | src/lib/validators/registerSchema.ts:3-38 | `user@gmail.com` / `Alice` / `Abc12345!` twice / `2015` passes whenever the e-mail check accepts the address |
| `RegisterSchema.QuestionMarkConfirmation` | src/lib/validators/registerSchema.ts:24-38 | a confirmation `Abc12345?` is shown the format message, not the mismatch |
| `RegisterSchema.ShortName` | src/lib/validators/registerSchema.ts:13-16 | a two-letter name is shown the min(3) message |
| `RegisterForm.WithValue` | src/components/RegisterForm.tsx:124-229 | editing a field replaces that field's value (a chosen year becomes present) and no other |
| `RegisterForm.Form.constructor` | src/components/RegisterForm.tsx:40-51 | a fresh form is at step 0 with the default values `DefaultDraft` (four empty strings, no year), every field clean, no notification |
| `RegisterForm.Form.Edit` | src/components/RegisterForm.tsx:124-229 | an edit changes only that field's value and flags; step and notifications are untouched |
| `RegisterForm.Form.Advance` | src/components/RegisterForm.tsx:65-79 | step becomes 1 iff all four identity fields are dirty and not invalid, else stays; values, flags and notifications are untouched |
| `RegisterForm.Form.Retreat` | src/components/RegisterForm.tsx:260-265 | step becomes 0 from either step with no check; nothing else changes |
| `RegisterForm.Form.KeyUp` | src/components/RegisterForm.tsx:103-107 | Enter runs the advance handler at either step; other keys change nothing |
| `RegisterForm.Form.Submit` | src/components/RegisterForm.tsx:81-102 | offered only at step 1; the success notification `SuccessToast` is appended iff the whole schema passes, otherwise the resolver's errors are returned; step, values and flags are untouched |
| `RegisterForm.AdvanceStep` | src/components/RegisterForm.tsx:65-79 | the step after the advance handler; specified by `AdvanceGuard`, `UntouchedFieldBlocks` and `AdvanceIdempotent` |
| `RegisterForm.AdvanceGuard` | src/components/RegisterForm.tsx:65-79 | advancing reaches step 1 iff already there or each of `email`, `name`, `password`, `passwordCheck` is dirty and not invalid |
| `RegisterForm.UntouchedFieldBlocks` | src/components/RegisterForm.tsx:73-76 | an identity field that was never edited blocks advancing, whatever its value |
| `RegisterForm.AdvanceIdempotent` | src/components/RegisterForm.tsx:103-107 | at step 1 advancing keeps step 1, and advancing twice equals advancing once |
| `RegisterForm.InitialForm` | src/components/RegisterForm.tsx:40-50 | a fresh form cannot advance; each of the four default values fails its own rule, and `year` is reported missing |
| `RegisterForm.ControlsAt` | src/components/RegisterForm.tsx:201-295 | back hidden at step 0, next hidden at step 1, submit rendered only at step 1, year panel hidden at step 0; specified by `ControlsPartition` |
| `RegisterForm.ControlsPartition` | src/components/RegisterForm.tsx:259-295 | at each step exactly one of "next" and "submit" is offered, "back" is offered iff "submit" is, and the year panel is hidden iff "next" is offered |
| `RegisterForm.IdentityPanelOffset` | src/components/RegisterForm.tsx:116-118 | the first panel's offset in percent; specified by `PanelOffsets` |
| `RegisterForm.YearPanelOffset` | src/components/RegisterForm.tsx:207-212 | the year panel's offset in percent; specified by `PanelOffsets` |
| `RegisterForm.PanelOffsets` | src/components/RegisterForm.tsx:116-211 | the year panel is always 100% right of the identity panel: (0, 100) at step 0 and (-100, 0) at step 1 |
| `RegisterForm.YearOptions` | src/components/RegisterForm.tsx:238-249 | the year list built from `Array(100).fill(2023)`; specified by `YearOptionsSpec` and `YearOptionMembership` |
| `RegisterForm.YearOptionsSpec` | src/components/RegisterForm.tsx:238-249 | exactly 100 choices; choice `i` has key `i` and a decimal value reading 2013 + i, so the values increase strictly, are distinct, and each passes the `year` rule |
| `RegisterForm.YearOptionMembership` | src/components/RegisterForm.tsx:238-249 | a string is a year choice iff it is the numeral of a year from 2013 to 2112 |

## Left out

- The e-mail syntax check of the validation library: it is the parameter `isEmail`, with no definition.
- The library's per-field `isDirty`/`invalid` bookkeeping: `Form.Edit` receives the new flags as an input. `form.trigger` in the advance handler is not awaited, so the guard reads the flags as they stand. The model therefore does not recompute them, and `Form.Advance` makes no claim about password equality.
- Form.Submit: does not update the `invalid` flags after a submission. The library replaces its error object after every submission, emptying it when validation passes. Those flags are not recomputed anywhere in this model.
- Decimal.FromNat: prints every digit of any whole number. JavaScript does that only for safe integers: from 2^53 it rounds, and from 10^21 it switches to exponent form (`1e+21`). The form renders only 2013 to 2112.
- RefinementRuns: follows the validation library's current rule. The equality refinement is skipped only when parsing the object was aborted, which a missing `year` causes. Older library versions skip it whenever any field fails. The two agree whenever every field passes its own rule, and the lemmas about that case hold either way.
- Field lengths count characters. JavaScript counts UTF-16 code units, so a character outside the Basic Multilingual Plane counts once here and twice in the source.
- The order of messages inside a field follows the order in which the checks are declared. The resolver keeps the first one (its default first-error mode); the all-criteria mode is not modelled.
- `console.log(data)` in the submit handler, toast rendering, JSX markup, framer-motion animation and the Select and Card components: presentation or I/O.
- Implicit form submission by the browser, when Enter is pressed in a text input while the submit button exists: browser behaviour, not code in these files.
- PanelOffsets: gives the offsets as numbers of percent. The source builds strings, and at step 0 the first panel's string is `-0%`, which the browser reads as 0.
- The app shell, header, theme provider, toaster mounting and the confetti success page: no logic.
