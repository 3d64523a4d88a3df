# React learning app: a Dafny model of its routing, header and state examples

This project models, in Dafny, the parts of a small React teaching application that
hold real logic:

- **The route table.** `src/routes/config.jsx` holds the route table, the catch-all route and the limit on
  primary header links (`RouteConfig`).
- **The two header components.** Both build the navigation menu from the route table:
  - the inline-styled one (`Navigation`);
  - the CSS-class one (`StyledHeader`).
- **The state examples.** These are a counter, three toggles, a task list, a contact form and a nested user
  record with an edit mode (`CounterExample`, `ToggleExample`, `ListExample`,
  `FormExample`, `ObjectExample`).
- **The custom hooks.** `useWindowSize`'s breakpoints, `useToggle`, `useCounter` and
  `useForm` (`CustomHooks`), and the theme and user contexts (`ContextExample`).
- **The synchronous ES6 demos** (`Es6Practice`).
- **Shared JavaScript string behaviour** (`JsText`):
  - `trim`;
  - `split` on one character;
  - `parseInt` with no radix;
  - the number-to-text rendering of a template literal;
  - the unanchored test of `\S+@\S+\.\S+`.

Pure code (route filtering, style computation, reducers of the state examples) is
modelled as functions on datatypes with lemmas about them. Each React state cell is a
field of a class, and each event handler is a method whose `ensures` gives the new state
as a function of the old one. The functions are then proved to have the properties the
components rely on. For example:
- toggling twice restores a task;
- deleting keeps the other tasks in order;
- the form is valid exactly when every field is filled and the email matches;
- the header shows every menu route exactly once.

In the object example, JavaScript objects are heap objects (`ObjectExample.JsObject`),
so that the sharing created by a shallow `{...obj}` copy is visible:
- `handleEditChange` writes through the copy into nested objects it shares with `user`.
- `ObjectExample.BioEditLeaksIntoUser` proves that an edit of `profile.bio` shows in
  `user` at once and survives a cancel.

## Model

| member | source | states |
|---|---|---|
| RouteConfig.ShippedTableWellFormed | src/routes/config.jsx:22-31 | the shipped table has exactly one index route and it is first; paths are distinct; every entry is in the menu with a non-empty label; the first path is "/" |
| RouteConfig.CatchAllOutsideTable | src/routes/config.jsx:34 | the catch-all route is not in the table, no table entry has its path, and it is neither in the menu nor the index |
| RouteConfig.PrimaryLimitExceedsTable | src/routes/config.jsx:37 | the table has 4 entries and the primary limit is 7, so the shipped header needs no overflow |
| Navigation.ToNavItem | src/components/Header.jsx:67-72 | the index route links to "/", any other to its own path; the text is the label when present and non-empty, otherwise the path |
| Navigation.InNavRoutes | src/components/Header.jsx:67-69 | the kept routes are no more than the input and all have `inNav` set |
| Navigation.InNavRoutesInTableOrder | src/components/Header.jsx:67-69 | the kept routes are exactly the `inNav` entries of the table, at strictly increasing table positions, so the menu keeps table order and misses none |
| Navigation.InNavRoutesAppend | src/components/Header.jsx:67-69 | filtering a concatenation is the concatenation of the filtered parts |
| Navigation.InNavRoutesKeepsAll | src/components/Header.jsx:67-69 | when every entry is in the menu, filtering changes nothing |
| Navigation.NavItems | src/components/Header.jsx:67-72 | one item per kept route, in order, each made by `ToNavItem` |
| Navigation.Split | src/components/Header.jsx:74-75 | the primary part has min(n, max) items and the overflow max(0, n - max); together they are the items in order; primary is a prefix |
| Navigation.RenderNavItem | src/components/Header.jsx:25-31 | a link keeps the item's target and text, and has `end` set exactly when it points to "/" |
| Navigation.RenderNavItems | src/components/Header.jsx:25-31 | one rendered link per item, in order |
| Navigation.BaseLinkStyle | src/components/Header.jsx:9-19 | the link is active exactly when its background is not transparent, and exactly when its border is not transparent |
| Navigation.BaseLinkStyleInjective | src/components/Header.jsx:9-19 | the active and inactive styles differ, so the style shows the state |
| Navigation.MoreMenu | src/components/Header.jsx:37-63 | no menu exactly when there are no overflow items; otherwise the menu renders all of them |
| Navigation.Header | src/components/Header.jsx:65-75 | min(n, max) primary links for the n menu routes, and no "More" menu exactly when n <= max |
| Navigation.HeaderShowsEveryEntryOnce | src/components/Header.jsx:65-75 | the header shows min(n, max) primary links, a "More" menu exactly when n > max with the other n - max, and primary then overflow is every menu route exactly once, in table order |
| Navigation.EndOnlyForRoot | src/components/Header.jsx:27 | a rendered link has `end` exactly when its route is the index route or has path "/" |
| Navigation.ShippedHeader | src/components/Header.jsx:65-75 | the shipped table gives four primary links (Home, ES6 Examples, Props Example, State Examples), only Home with `end`, and no "More" menu |
| StyledHeader.LinkClassTokens | src/components/Header/Header.jsx:18 | read as a class list, the class string holds `linkActive` exactly when the link is active |
| StyledHeader.LinkClassSplit | src/components/Header/Header.jsx:18 | the class string's space-separated tokens are `["link"]` when inactive and `["link", "linkActive"]` when active |
| StyledHeader.StyledNavItem | src/components/Header/Header.jsx:13-23 | a link keeps target and text, has `end` exactly for "/", and its class marks it active exactly when its target is active |
| StyledHeader.StyledNavItems | src/components/Header/Header.jsx:35-39 | one styled link per item, in order |
| StyledHeader.StyledMoreMenu | src/components/Header/Header.jsx:29-43 | no menu exactly when there are no items; otherwise it renders all of them |
| StyledHeader.SameMenuAsPlainHeader | src/components/Header/Header.jsx:46-53 | without its classes, the styled header is the plain header: same primary links, same "More" menu; each primary link is marked active exactly when its target is active |
| StyledHeader.UnstyledNavItems | src/components/Header/Header.jsx:13-23 | stripping the classes from the styled links gives the plain header's links |
| StyledHeader.LinkClass | src/components/Header/Header.jsx:18 | the class string starts with `link`, and holds a second class (a space) exactly when the link is active |
| StyledHeader.Header | src/components/Header/Header.jsx:46-53 | min(n, max) primary links for the n menu routes, and no "More" menu exactly when n <= max |
| CounterExample.Step | src/examples/state-example/CounterExample.jsx:10-13 | increment adds 1, decrement subtracts 1, `incrementBy(n)` adds n, reset gives 0 |
| CounterExample.ReplayAppend | src/examples/state-example/CounterExample.jsx:10-13 | replaying two runs of clicks one after the other is replaying their concatenation |
| CounterExample.RepeatedSteps | src/examples/state-example/CounterExample.jsx:10-11 | n increments add n and n decrements subtract n |
| CounterExample.StepsCancel | src/examples/state-example/CounterExample.jsx:10-23 | an increment and a decrement cancel in either order; the +5 button equals five increments |
| CounterExample.ResetAndNoFloor | src/examples/state-example/CounterExample.jsx:11-12 | reset gives 0, and decrementing after a reset goes below zero (there is no floor) |
| CounterExample.Counter.constructor | src/examples/state-example/CounterExample.jsx:8 | the count starts at 0 |
| CounterExample.Counter.Increment | src/examples/state-example/CounterExample.jsx:10 | the new count is `Step` of the old count by an increment |
| CounterExample.Counter.Decrement | src/examples/state-example/CounterExample.jsx:11 | the new count is `Step` of the old count by a decrement |
| CounterExample.Counter.Reset | src/examples/state-example/CounterExample.jsx:12 | the new count is `Step` of the old count by a reset |
| CounterExample.Counter.IncrementBy | src/examples/state-example/CounterExample.jsx:13 | the new count is `Step` of the old count by `incrementBy(amount)` |
| ToggleExample.Press | src/examples/state-example/ToggleExample.jsx:12-14 | each switch flips its own flag and leaves the other two alone |
| ToggleExample.ThemeName | src/examples/state-example/ToggleExample.jsx:56 | the label is "Dark" exactly in dark mode and "Light" exactly otherwise |
| ToggleExample.PressTwiceRestores | src/examples/state-example/ToggleExample.jsx:12-14 | pressing the same switch twice restores the flags |
| ToggleExample.PressesCommute | src/examples/state-example/ToggleExample.jsx:12-14 | presses of any two switches commute |
| ToggleExample.Toggles.constructor | src/examples/state-example/ToggleExample.jsx:8-10 | all three flags start false |
| ToggleExample.Toggles.ToggleVisibility | src/examples/state-example/ToggleExample.jsx:12 | the new flags are `Press` of the old ones on the visibility switch |
| ToggleExample.Toggles.ToggleExpanded | src/examples/state-example/ToggleExample.jsx:13 | the new flags are `Press` of the old ones on the expanded switch |
| ToggleExample.Toggles.ToggleDarkMode | src/examples/state-example/ToggleExample.jsx:14 | the new flags are `Press` of the old ones on the dark-mode switch |
| ListExample.Toggled | src/examples/state-example/ListExample.jsx:32-36 | same length; every task with the id has its completion flipped, every other task is unchanged |
| ListExample.Renamed | src/examples/state-example/ListExample.jsx:47-51 | same length; every task with the id takes the new text, every other task is unchanged |
| ListExample.Without | src/examples/state-example/ListExample.jsx:38-40 | no longer than the input, and no remaining task has the id |
| ListExample.CompletedCount | src/examples/state-example/ListExample.jsx:18 | the completed count never exceeds the number of tasks |
| ListExample.CompletedCountFlags | src/examples/state-example/ListExample.jsx:18 | the completed count is 0 exactly when no task has `completed` set, and equals the list length exactly when every task has it |
| ListExample.Progress | src/examples/state-example/ListExample.jsx:83 | the shown progress is at most 100, and 0 for an empty list |
| ListExample.RoundedPercent | src/examples/state-example/ListExample.jsx:83 | `Math.round(c / t * 100)`: the integer r with r - 1/2 <= 100c/t < r + 1/2, the nearest integer with halves rounded up |
| ListExample.ToggleTwiceRestores | src/examples/state-example/ListExample.jsx:32-36 | toggling the same id twice restores the list |
| ListExample.ToggleKeepsIdsAndTexts | src/examples/state-example/ListExample.jsx:32-36 | toggling keeps every task's id and text at its position |
| ListExample.WithoutAppend | src/examples/state-example/ListExample.jsx:38-40 | deleting from a concatenation deletes from each part, so the kept tasks stay in order |
| ListExample.WithoutKeepsTheRest | src/examples/state-example/ListExample.jsx:38-40 | every task with another id is kept, nothing new appears, and deleting an absent id changes nothing |
| ListExample.WithoutToggled | src/examples/state-example/ListExample.jsx:32-40 | deleting an id after toggling it gives the same list as deleting it directly |
| ListExample.ProgressIsPercentage | src/examples/state-example/ListExample.jsx:79-83 | the pending count is between 0 and the total; progress is at most 100, 0 when no task has `completed` set, and 100 on a non-empty list where every task has it |
| ListExample.RoundedPercentBounds | src/examples/state-example/ListExample.jsx:83 | `Math.round(c / t * 100)` with c ≤ t lies in 0..100, is 0 for c = 0 and 100 for c = t |
| ListExample.InitialStatistics | src/examples/state-example/ListExample.jsx:8-18 | the initial list has 3 tasks, 1 completed, 2 pending, and shows 33% progress |
| ListExample.TaskList.constructor | src/examples/state-example/ListExample.jsx:8-15 | the initial tasks, an empty input, no task in edit and an empty edit text |
| ListExample.TaskList.SetNewItemText | src/examples/state-example/ListExample.jsx:97 | only the input text changes |
| ListExample.TaskList.AddItem | src/examples/state-example/ListExample.jsx:20-30 | with a non-blank input, one open task with the trimmed text is appended and the input cleared; with a blank input nothing changes |
| ListExample.TaskList.ToggleItem | src/examples/state-example/ListExample.jsx:32-36 | the tasks become `Toggled` of the old tasks; nothing else changes |
| ListExample.TaskList.DeleteItem | src/examples/state-example/ListExample.jsx:38-40 | the tasks become `Without` the id; nothing else changes |
| ListExample.TaskList.StartEdit | src/examples/state-example/ListExample.jsx:42-45 | editing starts on the id with the given text; the tasks and input are unchanged |
| ListExample.TaskList.SetEditText | src/examples/state-example/ListExample.jsx:150 | only the edit text changes |
| ListExample.TaskList.SaveEdit | src/examples/state-example/ListExample.jsx:47-55 | with a non-blank edit text, matching tasks take the trimmed text and editing ends; with a blank one nothing changes |
| ListExample.TaskList.CancelEdit | src/examples/state-example/ListExample.jsx:57-60 | editing ends with an empty edit text; the tasks are unchanged |
| ListExample.TaskList.ClearAll | src/examples/state-example/ListExample.jsx:62-64 | the list becomes empty (progress 0); the other cells are unchanged |
| FormExample.FormErrors | src/examples/state-example/FormExample.jsx:35-55 | each field has an error exactly when the source's check fails (blank name, message or email; an email failing the pattern; agree unchecked), with the source's message, and the email's "required" message takes precedence |
| FormExample.ValidIffComplete | src/examples/state-example/FormExample.jsx:35-57 | no errors exactly when name and message are not blank, agree is checked and the email is not blank and matches `\S+@\S+\.\S+` |
| FormExample.BlankFormErrors | src/examples/state-example/FormExample.jsx:9-14 | the initial empty form has all four "required" errors |
| FormExample.FilledFormPasses | src/examples/state-example/FormExample.jsx:35-57 | a form filled with a name, `john@example.com`, a message and agree passes |
| FormExample.ContactForm.constructor | src/examples/state-example/FormExample.jsx:9-17 | empty form, no errors, not submitted |
| FormExample.ContactForm.HandleInputChange | src/examples/state-example/FormExample.jsx:19-33 | the changed field takes the value (the checkbox takes `checked`); that field's non-empty error is blanked, and the other errors and the error keys are unchanged |
| FormExample.ContactForm.ValidateForm | src/examples/state-example/FormExample.jsx:35-58 | the errors become `FormErrors` of the data; the result is true exactly when there are none |
| FormExample.ContactForm.HandleSubmit | src/examples/state-example/FormExample.jsx:60-67 | the errors are recomputed, and the form counts as submitted once it has been valid |
| FormExample.ContactForm.ResetForm | src/examples/state-example/FormExample.jsx:69-78 | empty form, no errors, not submitted |
| CustomHooks.BreakpointsOf | src/examples/hooks-example/CustomHooksExample.jsx:113-115 | mobile below 768, tablet from 768 below 1024, desktop from 1024 |
| CustomHooks.ExactlyOneBreakpoint | src/examples/hooks-example/CustomHooksExample.jsx:113-115 | every width is exactly one of the three, and widening never leaves desktop nor enters mobile |
| CustomHooks.ToggleStep | src/examples/hooks-example/CustomHooksExample.jsx:131-147 | toggle negates, setTrue gives true, setFalse gives false, setValue gives its argument |
| CustomHooks.ToggleLaws | src/examples/hooks-example/CustomHooksExample.jsx:131-147 | toggling twice restores; setTrue and setFalse are idempotent and forget the previous value |
| CustomHooks.ToggleHook.constructor | src/examples/hooks-example/CustomHooksExample.jsx:131-132 | the value starts at the initial value, or false when it is omitted |
| CustomHooks.ToggleHook.Toggle | src/examples/hooks-example/CustomHooksExample.jsx:134-136 | the new value is `ToggleStep` of the old by toggle |
| CustomHooks.ToggleHook.SetTrue | src/examples/hooks-example/CustomHooksExample.jsx:138-140 | the new value is `ToggleStep` of the old by setTrue |
| CustomHooks.ToggleHook.SetFalse | src/examples/hooks-example/CustomHooksExample.jsx:142-144 | the new value is `ToggleStep` of the old by setFalse |
| CustomHooks.ToggleHook.SetValue | src/examples/hooks-example/CustomHooksExample.jsx:146 | the new value is `ToggleStep` of the old by setValue |
| CustomHooks.CounterStep | src/examples/hooks-example/CustomHooksExample.jsx:150-167 | increment adds the step, decrement subtracts it, reset gives the initial value, setValue gives its argument |
| CustomHooks.RepeatedCounterSteps | src/examples/hooks-example/CustomHooksExample.jsx:153-159 | n increments add n·step and n decrements subtract n·step |
| CustomHooks.ResetForgetsHistory | src/examples/hooks-example/CustomHooksExample.jsx:161-163 | any run of actions followed by a reset ends at the initial value |
| CustomHooks.SignFlagsOf | src/examples/hooks-example/CustomHooksExample.jsx:175-177 | positive, negative and zero flags hold exactly for count > 0, < 0 and = 0 |
| CustomHooks.ExactlyOneSign | src/examples/hooks-example/CustomHooksExample.jsx:175-177 | exactly one of the three flags holds |
| CustomHooks.PageCounter | src/examples/hooks-example/CustomHooksExample.jsx:265 | the page's counter with step 5 reaches 10 after two increments (positive) and -5 after one decrement |
| CustomHooks.CounterHook.constructor | src/examples/hooks-example/CustomHooksExample.jsx:150-151 | the count starts at the initial value (0 when omitted), with the given step (1 when omitted) |
| CustomHooks.CounterHook.Increment | src/examples/hooks-example/CustomHooksExample.jsx:153-155 | the new count is `CounterStep` of the old by increment |
| CustomHooks.CounterHook.Decrement | src/examples/hooks-example/CustomHooksExample.jsx:157-159 | the new count is `CounterStep` of the old by decrement |
| CustomHooks.CounterHook.Reset | src/examples/hooks-example/CustomHooksExample.jsx:161-163 | the new count is `CounterStep` of the old by reset |
| CustomHooks.CounterHook.SetValue | src/examples/hooks-example/CustomHooksExample.jsx:165-167 | the new count is `CounterStep` of the old by setValue |
| CustomHooks.FieldError | src/examples/hooks-example/CustomHooksExample.jsx:219-225 | a falsy value fails only a required rule; a truthy value shorter than `minLength` gets the length message; otherwise a failed pattern gets its message (or "is invalid"); otherwise no error |
| CustomHooks.SchemaErrors | src/examples/hooks-example/CustomHooksExample.jsx:213-230 | the errors cover only schema fields, and a field has an error exactly when `FieldError` gives one, with that message |
| CustomHooks.ShowsError | src/examples/hooks-example/CustomHooksExample.jsx:580-584 | an error shows exactly when the field has a non-empty error and has been touched |
| CustomHooks.ClearError | src/examples/hooks-example/CustomHooksExample.jsx:191 | the same keys; the changed field's error becomes empty; the others are unchanged |
| CustomHooks.ClearErrorKeepsInvalid | src/examples/hooks-example/CustomHooksExample.jsx:191 | clearing keeps the key count (so `isValid` stays false) while the field's error no longer shows |
| CustomHooks.EmptyRequiredFields | src/examples/hooks-example/CustomHooksExample.jsx:219-220 | when every schema field is required and empty, every field gets exactly its "is required" message |
| CustomHooks.PageFormStartsInvalid | src/examples/hooks-example/CustomHooksExample.jsx:267-282 | the page's initial values fail name, email and message, each with its "is required" message |
| CustomHooks.ShortNameMessage | src/examples/hooks-example/CustomHooksExample.jsx:221-222 | a one-letter name gets "name must be at least 2 characters" |
| CustomHooks.IsAnchoredEmail | src/examples/hooks-example/CustomHooksExample.jsx:278 | the page schema's anchored `^[^\s@]+@[^\s@]+\.[^\s@]+$` is stricter than the contact form's test: every string it accepts passes `LooksLikeEmail` |
| CustomHooks.AnchoredMatchIsMatch | src/examples/hooks-example/CustomHooksExample.jsx:278 | an anchored match at a given `@` and `.` is a match of `\S+@\S+\.\S+` at the same positions |
| CustomHooks.FormHook.constructor | src/examples/hooks-example/CustomHooksExample.jsx:182-185 | values are the initial values (`{}` when omitted); no errors; nothing touched |
| CustomHooks.FormHook.HandleChange | src/examples/hooks-example/CustomHooksExample.jsx:187-193 | the field takes the value and its error is cleared; touched is unchanged |
| CustomHooks.FormHook.HandleBlur | src/examples/hooks-example/CustomHooksExample.jsx:195-197 | the field becomes touched; values and errors are unchanged |
| CustomHooks.FormHook.SetFieldValue | src/examples/hooks-example/CustomHooksExample.jsx:199-201 | only the field's value changes |
| CustomHooks.FormHook.SetFieldError | src/examples/hooks-example/CustomHooksExample.jsx:203-205 | only the field's error changes |
| CustomHooks.FormHook.Reset | src/examples/hooks-example/CustomHooksExample.jsx:207-211 | initial values, no errors, nothing touched: valid and not dirty |
| CustomHooks.FormHook.Validate | src/examples/hooks-example/CustomHooksExample.jsx:213-230 | the loop over the schema leaves the errors equal to `SchemaErrors`; the result is `isValid` |
| CustomHooks.FormHook.IsValid | src/examples/hooks-example/CustomHooksExample.jsx:242 | valid exactly when the errors object has no keys, even empty-message ones |
| CustomHooks.FormHook.IsDirty | src/examples/hooks-example/CustomHooksExample.jsx:243 | not dirty exactly when the values have the same keys as the initial values and agree on each |
| ContextExample.DeriveTheme | src/examples/hooks-example/useContextExample.jsx:19-28 | dark exactly for "dark"; the four colours are the dark set in dark mode and the light set otherwise; theme and accent are passed through |
| ContextExample.ColoursDependOnThemeAlone | src/examples/hooks-example/useContextExample.jsx:24-28 | two themes that agree on being "dark" give the same derived colours, whatever the accents |
| ContextExample.ToggledTheme | src/examples/hooks-example/useContextExample.jsx:31-33 | "light" becomes "dark", anything else becomes "light" |
| ContextExample.ToggleThemeTwice | src/examples/hooks-example/useContextExample.jsx:31-33 | toggling twice restores "light" or "dark"; a toggle always gives one of them; an unknown theme ends at "dark" after two toggles |
| ContextExample.ThemeProvider.constructor | src/examples/hooks-example/useContextExample.jsx:14-15 | light theme with accent `#2196f3` |
| ContextExample.ThemeProvider.ToggleTheme | src/examples/hooks-example/useContextExample.jsx:31-33 | the theme becomes `ToggledTheme` of the old; the accent is unchanged |
| ContextExample.ThemeProvider.ChangeAccentColor | src/examples/hooks-example/useContextExample.jsx:35-37 | only the accent changes; the derived darkness and text colour stay |
| ContextExample.ThemeProvider.SetTheme | src/examples/hooks-example/useContextExample.jsx:14-21 | the theme becomes the argument; the accent is unchanged |
| ContextExample.MergeUser | src/examples/hooks-example/useContextExample.jsx:61-63 | each field present in the patch replaces the user's; each absent one keeps it |
| ContextExample.MergePreferences | src/examples/hooks-example/useContextExample.jsx:65-70 | each preference present in the patch replaces the old one; each absent one keeps it |
| ContextExample.WithPreferences | src/examples/hooks-example/useContextExample.jsx:65-70 | updating preferences is a user merge whose only change is the merged preferences |
| ContextExample.MergeLaws | src/examples/hooks-example/useContextExample.jsx:61-70 | an empty patch changes nothing, and applying the same patch twice equals applying it once, for users and for preferences |
| ContextExample.IsAdmin | src/examples/hooks-example/useContextExample.jsx:76 | admin exactly when the role is "admin" |
| ContextExample.IsLoggedIn | src/examples/hooks-example/useContextExample.jsx:77 | logged in exactly when the name is not empty |
| ContextExample.RoleTogglePatch | src/examples/hooks-example/useContextExample.jsx:185-187 | the patch changes only the role: to "user" for an admin, otherwise to "admin" |
| ContextExample.NotificationTogglePatch | src/examples/hooks-example/useContextExample.jsx:189-191 | the patch flips notifications and leaves the language |
| ContextExample.RoleToggleLaws | src/examples/hooks-example/useContextExample.jsx:185-187 | the role toggle flips `isAdmin`, and toggling twice restores a "user" or "admin" role |
| ContextExample.NotificationToggleLaws | src/examples/hooks-example/useContextExample.jsx:189-191 | the toggle flips notifications, keeps the language and every other field, and twice restores the user |
| ContextExample.UserProvider.constructor | src/examples/hooks-example/useContextExample.jsx:51-59 | the initial user, who is logged in and not an admin |
| ContextExample.UserProvider.UpdateUser | src/examples/hooks-example/useContextExample.jsx:61-63 | the user becomes `MergeUser` of the old user and the patch |
| ContextExample.UserProvider.UpdatePreferences | src/examples/hooks-example/useContextExample.jsx:65-70 | the user becomes `WithPreferences` of the old user and the patch |
| ContextExample.UserProvider.HandleNameChange | src/examples/hooks-example/useContextExample.jsx:181-183 | only the name changes, and the user is logged in exactly when the new name is not empty |
| ContextExample.UserProvider.HandleRoleToggle | src/examples/hooks-example/useContextExample.jsx:185-187 | the user becomes the merge with `RoleTogglePatch` of the old user |
| ContextExample.UserProvider.HandleNotificationToggle | src/examples/hooks-example/useContextExample.jsx:189-191 | the user becomes the preference merge with `NotificationTogglePatch` of the old user |
| ContextExample.UseTheme | src/examples/hooks-example/useContextExample.jsx:91-97 | outside a provider the hook fails with its message; inside it returns the context value |
| ContextExample.UseUser | src/examples/hooks-example/useContextExample.jsx:103-109 | outside a provider the hook fails with its message; inside it returns the context value |
| ObjectExample.Prop | src/examples/state-example/ObjectExample.jsx:139 | an own property reads its value; a missing one reads `undefined` |
| ObjectExample.Member | src/examples/state-example/ObjectExample.jsx:139 | reading a property fails exactly on `undefined`; on an object it is `Prop` |
| ObjectExample.Walk | src/examples/state-example/ObjectExample.jsx:138-140 | a successful walk stays inside the closed heap |
| ObjectExample.WalkStopsAtFailure | src/examples/state-example/ObjectExample.jsx:138-140 | once a read fails, the whole walk fails with that failure |
| ObjectExample.FollowPath | src/examples/state-example/ObjectExample.jsx:138-140 | the loop's result is exactly `Walk` of the keys from the start value |
| ObjectExample.SetProperty | src/examples/state-example/ObjectExample.jsx:142 | a write succeeds exactly on an object and then sets that key only; on `undefined` or a primitive it throws and changes nothing |
| ObjectExample.ClosedWithCopy | src/examples/state-example/ObjectExample.jsx:135 | a shallow copy refers only to objects the original refers to |
| ObjectExample.EditPath | src/examples/state-example/ObjectExample.jsx:132-145 | the copy is the only new object; a one-key path writes into the copy; a longer path succeeds exactly when the walk from the old record reaches an object, and then only that object changes; on failure no object changes |
| ObjectExample.InitialUser | src/examples/state-example/ObjectExample.jsx:9-28 | the record's keys are name, age, email, profile and settings, with the initial name and age 25 |
| ObjectExample.InitialHeapClosed | src/examples/state-example/ObjectExample.jsx:9-31 | the initial record, its nested objects and the edit copy form a closed heap |
| ObjectExample.ObjectPage.constructor | src/examples/state-example/ObjectExample.jsx:9-31 | the initial record, not in edit mode, with the edit data a distinct shallow copy of it |
| ObjectExample.ObjectPage.SetUserKey | src/examples/state-example/ObjectExample.jsx:34-39 | a new record object with one key replaced; no existing object changes |
| ObjectExample.ObjectPage.SetUserChildKey | src/examples/state-example/ObjectExample.jsx:55-63 | new record and child objects, the child being the old child spread plus the new key; no existing object changes |
| ObjectExample.ObjectPage.UpdateName | src/examples/state-example/ObjectExample.jsx:34-39 | only `name` changes, in a new record object |
| ObjectExample.ObjectPage.UpdateAge | src/examples/state-example/ObjectExample.jsx:41-46 | `age` becomes `parseInt(text) \|\| 0`, in a new record object |
| ObjectExample.ObjectPage.UpdateEmail | src/examples/state-example/ObjectExample.jsx:48-53 | only `email` changes, in a new record object |
| ObjectExample.ObjectPage.UpdateBio | src/examples/state-example/ObjectExample.jsx:55-63 | a new profile with the old profile's properties and the new bio |
| ObjectExample.ObjectPage.UpdateLocation | src/examples/state-example/ObjectExample.jsx:65-73 | a new profile with the old profile's properties and the new location |
| ObjectExample.ObjectPage.UpdateWebsite | src/examples/state-example/ObjectExample.jsx:75-83 | a new profile with the old profile's properties and the new website |
| ObjectExample.ObjectPage.UpdatePrivacy | src/examples/state-example/ObjectExample.jsx:111-119 | new settings with the old settings' properties and the new privacy |
| ObjectExample.ObjectPage.SetPreferenceKey | src/examples/state-example/ObjectExample.jsx:85-109 | it fails exactly when the record has no profile, changing nothing; otherwise it builds new record, profile and preferences objects with the key set |
| ObjectExample.ObjectPage.UpdateTheme | src/examples/state-example/ObjectExample.jsx:85-96 | `SetPreferenceKey` on `theme` |
| ObjectExample.ObjectPage.UpdateLanguage | src/examples/state-example/ObjectExample.jsx:98-109 | `SetPreferenceKey` on `language` |
| ObjectExample.ObjectPage.ToggleEditMode | src/examples/state-example/ObjectExample.jsx:121-130 | leaving edit mode makes `user` the edit object itself; entering makes a fresh shallow copy; the mode flips |
| ObjectExample.ObjectPage.CancelEdit | src/examples/state-example/ObjectExample.jsx:147-150 | a fresh shallow copy of `user`, edit mode off |
| ObjectExample.ObjectPage.HandleEditChange | src/examples/state-example/ObjectExample.jsx:132-145 | for `path.split('.')`, as `EditPath`: a one-key path sets that key on a new copy; a longer one writes into the shared nested object or fails with nothing changed; `user` is never replaced |
| ObjectExample.BioEditLeaksIntoUser | src/examples/state-example/ObjectExample.jsx:364 | after entering edit mode and editing `profile.bio`, `user` already shows the new bio, and still does after cancel |
| Es6Practice.SumBelow | src/examples/es6-example/es6-practice.js:12-15 | twice the sum 0 + … + (n-1) is n(n-1) |
| Es6Practice.DemoLetConst | src/examples/es6-example/es6-practice.js:11-24 | the loop's sum is `SumBelow(3)` = 3, the mutated property is 2, and the flag is false |
| Es6Practice.Doubled | src/examples/es6-example/es6-practice.js:99 | same length, each element doubled |
| Es6Practice.Evens | src/examples/es6-example/es6-practice.js:100 | no longer than the input, and every kept element is even |
| Es6Practice.EvensKeepsEveryEven | src/examples/es6-example/es6-practice.js:100 | every even element of the input is kept |
| Es6Practice.EvensFromInput | src/examples/es6-example/es6-practice.js:100 | every kept element comes from the input |
| Es6Practice.EvensAppend | src/examples/es6-example/es6-practice.js:100 | filtering a concatenation concatenates the filtered parts (order kept) |
| Es6Practice.SumAppend | src/examples/es6-example/es6-practice.js:101 | the sum of a concatenation is the sum of the parts |
| Es6Practice.SumDoubled | src/examples/es6-example/es6-practice.js:99-101 | the sum of the doubled array is twice the sum |
| Es6Practice.DemoArrowFunctions | src/examples/es6-example/es6-practice.js:30-35 | `[1, 2, 3]` doubled by the arrow function is [2, 4, 6], and `add(2, 3)` is 5 |
| Es6Practice.ArrayMethods | src/examples/es6-example/es6-practice.js:97-103 | for any array, `map` doubles each element in place order, `reduce` from 0 is the left-fold sum of the array (so the mapped sum is twice it), and the filter keeps exactly the even elements |
| Es6Practice.DemoArrayMethods | src/examples/es6-example/es6-practice.js:97-103 | mapped [2, 4, 6, 8, 10], filtered [2, 4], reduced 15 |
| Es6Practice.Greeting | src/examples/es6-example/es6-practice.js:43 | "Hello, " then the name then "!" |
| Es6Practice.TwoLines | src/examples/es6-example/es6-practice.js:44 | the two-line template splits at its line break into "Line 1" and "Line 2" |
| Es6Practice.DemoTemplateLiterals | src/examples/es6-example/es6-practice.js:41-46 | the greeting "Hello, React Learner!" and the two-line string |
| Es6Practice.HeadPair | src/examples/es6-example/es6-practice.js:57 | with two or more elements, the first, the second and the rest rebuild the array; a non-empty array always binds the first to its first element (so a one-element array keeps it); a shorter array leaves the second undefined and the rest empty; the first is undefined exactly for an empty array |
| Es6Practice.DemoDestructuring | src/examples/es6-example/es6-practice.js:52-63 | "Dipak", 20 and [30, 40] |
| Es6Practice.Merge | src/examples/es6-example/es6-practice.js:72 | every key of either object; on a shared key the later object's value |
| Es6Practice.DemoSpreadRest | src/examples/es6-example/es6-practice.js:69-81 | merged {a:1, b:2, c:3}; the rest parameter collects the arguments as [1, 2, 3]; withExtra {x:1, y:2, z:9} |
| Es6Practice.DemoDefaultParams | src/examples/es6-example/es6-practice.js:89-91 | the result record's `sum` adds the given arguments; a missing one takes its default 5 or 10 |
| Es6Practice.DefaultParamsCalls | src/examples/es6-example/es6-practice.js:138 | `demoDefaultParams(7)` is 17, and with no arguments 15 |
| Es6Practice.DemoModules | src/examples/es6-example/es6-practice.js:110-112 | the result record holds the fixed, non-empty note |
| JsText.Trim | src/examples/state-example/ListExample.jsx:21-24 | the result is the slice of the input between leading and trailing whitespace, empty exactly when the input is all whitespace, and otherwise neither starts nor ends with whitespace |
| JsText.BlankIffTrimEmpty | src/examples/state-example/ListExample.jsx:21 | `!s.trim()` holds exactly for the blank strings |
| JsText.TrimIdempotent | src/examples/state-example/ListExample.jsx:24 | trimming twice is trimming once |
| JsText.IsBlank | src/examples/state-example/ListExample.jsx:21 | the string is empty or all JavaScript whitespace (its tie to `!s.trim()` is `BlankIffTrimEmpty`) |
| JsText.Split | src/examples/state-example/ObjectExample.jsx:133 | at least one piece, and no piece contains the separator |
| JsText.SplitCount | src/examples/state-example/ObjectExample.jsx:133 | there is one more piece than separators in the string |
| JsText.JoinSplit | src/examples/state-example/ObjectExample.jsx:133 | joining the pieces with the separator gives back the string |
| JsText.SplitJoin | src/examples/state-example/ObjectExample.jsx:133 | splitting a join of separator-free pieces gives back the pieces |
| JsText.SplitNoSeparator | src/examples/state-example/ObjectExample.jsx:133 | a string without the separator is one piece |
| JsText.SplitAfterPiece | src/examples/state-example/ObjectExample.jsx:133 | a separator-free piece followed by the separator splits off as the first piece |
| JsText.NatToString | src/examples/state-example/ObjectExample.jsx:175 | a non-empty run of decimal digits |
| JsText.ParseInt | src/examples/state-example/ObjectExample.jsx:44 | `NaN` exactly when no digit follows the optional sign and prefix |
| JsText.ParseIntOfNatToString | src/examples/state-example/ObjectExample.jsx:175-176 | parsing a rendered non-negative number gives it back |
| JsText.ParseIntOfNegative | src/examples/state-example/ObjectExample.jsx:44 | `parseInt("-" + digits) \|\| 0` gives the negative number |
| JsText.ParseIntNoDigits | src/examples/state-example/ObjectExample.jsx:44 | text not starting with a sign or digit after whitespace parses as `NaN`, so `\|\| 0` gives 0 |
| JsText.ParseIntOrZero | src/examples/state-example/ObjectExample.jsx:44 | `parseInt(s) \|\| 0`: NaN gives 0, and any non-zero result is the parsed number |
| JsText.LooksLikeEmail | src/examples/state-example/FormExample.jsx:44 | some `@` and later `.` have non-whitespace around them (its reading as the regular expression is `LooksLikeEmailMatchesPattern`) |
| JsText.LooksLikeEmailMatchesPattern | src/examples/state-example/FormExample.jsx:44 | the form's email test holds exactly when some slice of the text is `x@y.z` with non-empty whitespace-free `x`, `y`, `z`, the regular expression's unanchored match |
| JsText.SampleEmails | src/examples/state-example/FormExample.jsx:44 | `john@example.com` passes; `john@example` and `john @example.com` fail |

## Left out

- Numbers: JavaScript numbers are doubles, and the model uses unbounded integers.
  - CounterExample.Counter and CustomHooks.CounterHook are exact only while the count stays within 2^53.
  - `parseInt` rounds digit strings beyond that range, which ObjectExample.ObjectPage.UpdateAge inherits through `JsText.ParseIntOrZero`.
  - A template literal renders numbers from 10^21 up in exponent form, so JsText.NatToString and JsText.ParseIntOfNatToString describe the source only below 10^21.
- ObjectExample.ObjectPage.HandleEditChange: a failed edit is modelled as changing nothing (`ok == false`). The same holds for ObjectExample.EditPath, ObjectExample.ObjectPage.SetPreferenceKey, UpdateTheme and UpdateLanguage.
  - In the source, the TypeError is thrown inside the `setEditData` or `setUser` updater.
  - React throws it again while rendering, and with no error boundary the page unmounts.
  - "Nothing changes" is the model's abstraction of that crash.
- ContextExample.MergeUser: patches are records of optional fields, so a patch cannot set a key to `undefined` or add a key outside the user record. `{...prev, ...updates}` would copy either in. ContextExample.MergePreferences has the same limit.
- The "More" summary's inline style. It reuses the inactive link style, and no member models it.
- `src/App.jsx` routing. Path matching is done by the router library, which is not part of this model. `App.jsx` hardcodes its routes instead of reading the route table, so the header's `/state-examples` link lands on the not-found page. Nothing here claims that the router and the menu agree.
- NavLink's active matching. It lives in the router library, so the set of active targets is a parameter of `StyledHeader.Header`.
- Rendering, CSS and markup beyond the values the components compute: `ScrollToTop`, the presentational components and pages, `PrettyJson`, `Price`.
- The other hooks of the custom-hooks page: `useLocalStorage` (storage I/O), `useOnlineStatus` (browser events), `useDebouncedValue` (timers), `usePrevious` (refs). Also the window-resize listener of `useWindowSize`: only its breakpoint flags are modelled, with the width as a parameter.
- The examples for `useEffect`, `useRef`, `useMemo` and `useCallback`. They deal with timers, DOM refs and memoisation, not state logic.
- `demoAsyncAwait` and `runAllEs6Demos`: promises and timers.
- `Date.now()` as a task id. `ListExample.TaskList.AddItem` takes the id as a parameter.
- ListExample.RoundedPercent: works on exact rationals, so it rounds `c / t * 100` exactly. The source rounds the floating-point product, which could differ only in rounding ties.
- Strings are sequences of characters, not UTF-16 code units. Surrogate pairs and length in code units are not modelled.
- `JSON.stringify` in `isDirty`. CustomHooks.FormHook.IsDirty compares the value maps directly. The form's values are strings under fixed keys, so the two comparisons agree except for key order, which the model does not track.
- `Object.keys` iteration order in `validate`. CustomHooks.FormHook.Validate visits the schema as a set, because each field's error depends only on that field.
- `touched` in `useForm` is an object of `true` flags. It is modelled as the set of touched names.
- ObjectExample.ObjectPage.HandleEditChange: requires that the written value is not an object. The page only writes strings and numbers, so an object written into the record is left out.
- Spreading a string (`{..."ab"}` gives index keys). `ObjectExample.Spread` gives no properties for a primitive; the record never holds a string where an object is spread.
- Reading a property of a primitive. `ObjectExample.Member` gives `undefined` for every key of a string, number or boolean, leaving out `length` and prototype members. The paths the page edits never read those.
