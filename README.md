# Add Group editor of the shot-clock app, modelled in Dafny

The app runs a turn-based drinking game for a stored group of people. This
project models the "Add Group" modal (`app/modals/addgroupmodal.tsx`): the
form state it keeps (group name, member slots, timer switch, timer text,
selected alarm), the handlers that edit that state, and `saveGroup`, which
turns the form into a `Group` record, appends it to the list stored under the
`"groups"` key and resets the form.

Files:

- `wrappers.dfy` (module `Wrappers`): `Option`, standing for `number | null`.
- `strings.dfy` (module `Strings`): `trim()` and the blank-entry test.
- `timer_text.dfy` (module `TimerText`): `Number(text) || null` for the timer field.
- `group_record.dfy` (module `GroupRecord`): the `Group` record, member filtering,
  removal of one slot by index, and the record built by `saveGroup`.
- `add_group_modal.dfy` (module `Modal`): the stored `"groups"` entry as class
  `GroupStorage`, and the component's state as class `AddGroupModal`, with one
  method per handler. A scripted session at the end saves one group.

The form keeps an invariant, `AddGroupModal.Valid`. There is always at least
one member slot, and the selected alarm is one of `sound1`, `sound2` and
`sound3`. Every handler preserves it.

Behaviour of the code that a reader may not expect, which the model keeps:

- The duration is read with JavaScript's `Number`, not as an integer. Text
  that reads as 0 or as NaN is stored as `null`, and the save goes ahead.
- `alarmSound` is stored even when the timer is off.
- The `id` comes from the clock and is not guaranteed to be unique. The model
  takes it as a parameter and claims nothing about uniqueness.
- If every member entry is blank, the group is still saved, with an empty
  member list (`GroupRecord.CleanMembersAllBlank`).

Behaviour of the code that the model does not keep:

- Text pasted into the duration field can give a negative or fractional
  duration ("-5", "1.5"), which is stored as is. The model reads only digit
  text (see "## Left out"), so its durations are always positive.

## Model

| member | source | states |
|---|---|---|
| Strings.Trim | app/modals/addgroupmodal.tsx:149-155 | the trimmed name is the infix of the text between leading and trailing whitespace; it is empty exactly when the text is all whitespace, and otherwise starts and ends with non-whitespace |
| Strings.IsBlank | app/modals/addgroupmodal.tsx:149-151 | a name or entry counts as blank exactly when every character of it is whitespace |
| Strings.TrimIdempotent | app/modals/addgroupmodal.tsx:155 | trimming the stored name again changes nothing |
| Strings.TrimOfTrimmed | app/modals/addgroupmodal.tsx:155 | text without whitespace at either end is its own trim |
| Strings.NonSpaceInsideTrim | app/modals/addgroupmodal.tsx:149-155 | every non-whitespace character survives trimming, at its shifted position |
| Strings.TrimPadded | app/modals/addgroupmodal.tsx:155 | whitespace padding around a trimmed string is exactly what trimming removes |
| TimerText.Decimal | app/modals/addgroupmodal.tsx:290-295 | the digits a number-pad user types for a number: non-empty, all digits, no leading zero |
| TimerText.DigitsValue | app/modals/addgroupmodal.tsx:158 | the number a digit string reads as; n digits read as less than 10^n |
| TimerText.DigitsValueOfDecimal | app/modals/addgroupmodal.tsx:158 | reading typed digits back gives the number typed |
| TimerText.DigitsValueZero | app/modals/addgroupmodal.tsx:158 | a digit string reads as 0 exactly when all its digits are '0' |
| TimerText.DigitsValueLeadingZero | app/modals/addgroupmodal.tsx:158 | one leading '0' does not change the value read |
| TimerText.DigitsValueLeadingZeros | app/modals/addgroupmodal.tsx:158 | any run of leading zeros, as in "007", does not change the value read |
| TimerText.ToNumber | app/modals/addgroupmodal.tsx:158 | in the model (digit text only), `Number(text)` is a number exactly when the trimmed text is all digits, and that number is the value of the trimmed digits; blank text reads as 0 |
| TimerText.ParseTimer | app/modals/addgroupmodal.tsx:158 | the stored duration is null when the timer is off, null when the text reads as 0 or NaN, and otherwise the positive number read |
| TimerText.TimerOffIgnoresText | app/modals/addgroupmodal.tsx:158 | with the timer off the duration is null whatever the text |
| TimerText.BlankTextGivesNoTimer | app/modals/addgroupmodal.tsx:158 | an empty or blank field gives null even with the timer on |
| TimerText.ZeroTextGivesNoTimer | app/modals/addgroupmodal.tsx:158 | "0", "00", ... give null |
| TimerText.DecimalTextGivesTimer | app/modals/addgroupmodal.tsx:158 | a typed positive number, with any surrounding whitespace, is stored as that number |
| TimerText.ZeroPaddedTextGivesTimer | app/modals/addgroupmodal.tsx:158 | zero-padded digits of a positive number, such as "007", are stored as that number |
| TimerText.NonDigitGivesNoTimer | app/modals/addgroupmodal.tsx:158 | in the model (digit text only), a character that is neither digit nor whitespace makes the duration null |
| GroupRecord.CleanMembers | app/modals/addgroupmodal.tsx:151 | the kept entries are never blank and never more than the form's |
| GroupRecord.CleanMembersAppend | app/modals/addgroupmodal.tsx:151 | filtering distributes over concatenation, so kept entries stay in form order |
| GroupRecord.CleanMembersMembership | app/modals/addgroupmodal.tsx:151 | an entry is kept exactly when it is in the form and not blank |
| GroupRecord.CleanMembersKeepsNonBlank | app/modals/addgroupmodal.tsx:151 | with no blank entries the list is kept as typed, untrimmed |
| GroupRecord.CleanMembersDropsOnlyBlanks | app/modals/addgroupmodal.tsx:151 | nothing is dropped exactly when no entry is blank |
| GroupRecord.CleanMembersAllBlank | app/modals/addgroupmodal.tsx:151 | an all-blank form yields an empty member list |
| GroupRecord.CleanMembersIdempotent | app/modals/addgroupmodal.tsx:151 | filtering the kept entries again changes nothing |
| GroupRecord.Without | app/modals/addgroupmodal.tsx:57 | filtering out one index shortens the list by one when the index is in range, and not at all otherwise |
| GroupRecord.WithoutInRange | app/modals/addgroupmodal.tsx:57 | an in-range index removes exactly that entry and keeps the rest in order |
| GroupRecord.WithoutOutOfRange | app/modals/addgroupmodal.tsx:57 | an out-of-range index keeps the list unchanged |
| GroupRecord.MakeGroup | app/modals/addgroupmodal.tsx:153-161 | the new record has the given id and timestamp, a non-empty trimmed name, exactly the non-blank entries in form order (the CleanMembers filter), the timer flag, the duration ParseTimer reads (only when the timer is on, and then positive), and the selected alarm even with the timer off |
| Modal.GroupStorage.constructor | app/modals/addgroupmodal.tsx:164 | the "groups" entry starts with the given content, absent or a list |
| Modal.GroupStorage.Loaded | app/modals/addgroupmodal.tsx:164-167 | an absent list reads as the empty list; a stored list reads as itself |
| Modal.AddGroupModal.constructor | app/modals/addgroupmodal.tsx:47-59 | a new form has an empty name, one empty member slot, the timer off with empty text, and alarm sound1 |
| Modal.AddGroupModal.SetGroupName | app/modals/addgroupmodal.tsx:216-218 | the name field holds the typed text |
| Modal.AddGroupModal.SetTimerEnabled | app/modals/addgroupmodal.tsx:282-284 | the timer flag follows the switch |
| Modal.AddGroupModal.SetTimerSeconds | app/modals/addgroupmodal.tsx:290-292 | the duration text holds the typed text |
| Modal.AddGroupModal.AddMemberField | app/modals/addgroupmodal.tsx:52-54 | the list grows by one empty slot at the end; earlier slots are unchanged |
| Modal.AddGroupModal.RemoveMemberField | app/modals/addgroupmodal.tsx:55-58 | a lone slot is kept; otherwise exactly the slot at the index is removed, others in order; an out-of-range index changes nothing; at least one slot remains |
| Modal.AddGroupModal.EditMember | app/modals/addgroupmodal.tsx:236-240 | only the edited slot changes, to the typed text; length and other slots are unchanged |
| Modal.AddGroupModal.SelectAlarm | app/modals/addgroupmodal.tsx:306-334 | the selected alarm becomes the pressed option |
| Modal.AddGroupModal.Reset | app/modals/addgroupmodal.tsx:173-178 | every field is back at its initial value |
| Modal.AddGroupModal.Save | app/modals/addgroupmodal.tsx:148-185 | a blank name or a storage failure changes neither form nor store; otherwise the built record is appended at the end of the stored list (an absent list counts as empty), earlier records are kept, and the form is reset |
| Modal.FridayRecord | app/modals/addgroupmodal.tsx:151-161 | name "  Friday ", entries "A", "", "B" and timer text " 10 " give name "Friday", members ["A", "B"] and 10 seconds |
| Modal.FridaySession | app/modals/addgroupmodal.tsx:148-185 | editing that form and saving into an empty store stores exactly that one record |

## Left out

- Rendering is not modelled: the JSX, the `RadioOption` markup and the fade animation.
- Audio is not modelled: the audio-mode setup, `playPreview` and unloading the preview when the modal hides. These are calls into expo-av. `SelectAlarm` covers only the state change.
- AsyncStorage and JSON are not modelled as such. The stored list is an `Option<seq<Group>>`, where None means the key was never written. A failure to read, parse or write is the boolean parameter `storageFails`, and it changes nothing. A stored value that is corrupt but parseable cannot be represented.
- Clock readings are parameters of `Save`: `Date.now()` becomes `id` and `toISOString()` becomes `createdAt`.
- The `onGroupSaved` and `onClose` callbacks are not called. `SaveOutcome.Saved` stands for "both were called".
- Async interleaving is not modelled. Neither is React's batching of setters, or handlers that read a stale `members` closure. Each handler runs to completion on the current state.
- The Cancel button is not modelled. It only calls `onClose` and leaves the form as it is.
- TimerText.ParseTimer: JavaScript `Number` is modelled only on text that is all digits after trimming, which is what the number-pad keyboard produces. Decimals, signs, exponents, hex and "Infinity" read as NaN in the model, and so give no timer. JavaScript reads them as numbers, so "1.5", "-5", "1e3" and "0x1F" are stored as 1.5, -5, 1000 and 31.
- TimerText.ToNumber: reads digit strings as unbounded integers. JavaScript rounds a digit string above 2^53 to the nearest double, so "9007199254740993" becomes 9007199254740992. A string of more than about 309 digits becomes Infinity, which is stored, and `JSON.stringify` writes it as null.
- TimerText.NonDigitGivesNoTimer: holds of the model only. In the source, '.', '-', '+', 'e' and 'x' can form a number that is stored.
- Strings.Trim: whitespace is a fixed set: the ASCII space and line characters, no-break space, the byte-order mark, and the line and paragraph separators. The other Unicode space separators are not included.
- Modal.AddGroupModal.SetTimerSeconds, Modal.AddGroupModal.SelectAlarm: these can run in any state. The source renders the duration field and the alarm options only while the timer is on (lines 289 and 300), so the model allows more orderings than the screen does.
- Modal.AddGroupModal.EditMember: the model requires an index that is on screen. Writing past the end of a JavaScript array leaves holes in it, and that is not modelled.
- The group list and delete screen (`app/(tabs)/list.tsx`) is not part of this model.
- The turn/timer play screen (`app/(tabs)/drinkingscreen.tsx`) is not part of this model.
