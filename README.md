# Festival bot: quest engine, sticker geometry and callback protocol

This project is a Dafny model of the core of a Telegram bot for the Avito × Dikaya Myata festival. It has three parts.

- **Quest engine** (`quest.dfy`, module `Quest`).
  - The five-step treasure-hunt catalog, with its QR and photo checks.
  - `advance_quest_step` as a method on a `QuestProgress` object. The database commit is a boolean input; a failed commit restores the record.
  - The quest summary and the ranking loop of the leaderboard.
  - A reachability argument: from a fresh record, any sequence of calls keeps the record in shape.
- **Sticker pipeline geometry** (`sticker.dfy`, module `Sticker`).
  - The five templates, and the `#RRGGBB` colour parse with its inverse.
  - The per-row gradient alpha and the row loop that paints it.
  - Text centring.
  - The scale and position arithmetic of `composite_images` and `generate_simple_sticker`.
  - The branch structure of `generate_sticker`.
- **Bot protocol** (`bot.dfy`, module `Bot`).
  - Registration callback strings, with Python `split("_")` and a proof that building then splitting a callback gives back its fields.
  - The slot keyboard loop and the `callback_handler` dispatch.
  - A `BotState` object holding the known users, the `user_states` awaiting-photo map, the registrations table kept free of duplicates, the quest records and the sticker log. Its methods are the handlers that change these.

`wrappers.dfy` holds `Option` and `Result`.

Four behaviours of the code that a reader might not expect, which the model keeps as written:

- **No fallback.** `generate_sticker` returns `(None, None)` when background removal or compositing fails.
- **No cap on the fallback scale.** `generate_simple_sticker` has no 1.0 cap, so a small photo is enlarged (`Sticker.SimpleFits`). Only `composite_images` caps the scale at 1.0.
- **No guard on completed records.** `advance_quest_step` does not consult `completed`, so a finished record given the final code appends again (`Quest.CompletedRecordStillAdvances`).
- **Unknown users fail.** In `handle_registration_selection`, an unknown user leaves the reply text unbound. The resulting exception turns into the generic callback error (`Bot.BotState.SelectRegistration`, `Bot.BotState.HandleCallback`).

Modelling choices:

- **Numbers.** Python floats are exact reals. `int()` is truncation toward zero (`Sticker.Trunc`), and `//` by a positive divisor is Dafny's `/`.
- **Inputs for the environment.**
  - The clock reading `now` and the commit outcome are parameters.
  - The image sizes that PIL would decode are parameters.
  - The list the database returns for the leaderboard is a parameter.
  - The index `random.choice` picks is a parameter.
- **Identities.** Users are identified by their Telegram id throughout. The code also keys database rows by an internal user id, which is a one-to-one renaming.

## Model

| member | source | states |
|---|---|---|
| Quest.GetQuestStep | quest_manager.py:7-44 | a step exists exactly for 1..5; steps 1 and 5 require a QR code and 2..4 a photo, each exactly one kind; the next step is n+1, and "complete" after step 5 |
| Quest.ValidateQrCode | quest_manager.py:46-53 | true iff step 1 with LIGHTHOUSE_QUEST_START, or step 5 with DANCE_FLOOR_QUEST_END; at any other step the expected code defaults to "", so only the empty string passes |
| Quest.ProcessPhotoSubmission | quest_manager.py:55-68 | true iff the step is 2, 3 or 4, whatever the user and photo |
| Quest.Message | quest_manager.py:79-116 | each refusal has a non-empty error text, never the success message |
| Quest.Advance | quest_manager.py:70-108 | accepted iff the step is in the catalog and the action matches its kind and passes its check; otherwise the error says which check failed; on acceptance exactly one entry {step, action, data, now} is appended, earlier entries are kept, the step moves to the next one and `completed` stays, or at step 5 `completed` and `completedAt` are set and the step stays 5 |
| Quest.QuestProgress.constructor | models.py:27-34 | a new record is at step 1 with no history, not completed and no completion time |
| Quest.AdvanceQuestStep | quest_manager.py:70-116 | succeeds iff the transition is accepted and the commit succeeds; the record then equals the accepted new state, otherwise its pre-call state; the message names the outcome, "Database error" on a failed commit |
| Quest.Fresh | models.py:30-34 | the column defaults of a new record; `Quest.InvFresh` proves it satisfies the reachability invariant |
| Quest.InvFresh | models.py:30-34 | the fresh record satisfies the reachability invariant |
| Quest.AfterCallPreservesInv | quest_manager.py:92-116 | one call, accepted or not, keeps the invariant, never clears `completed` and never shortens the history |
| Quest.RunPreservesInv | quest_manager.py:92-116 | any sequence of calls keeps the invariant, never clears `completed` and never shortens the history |
| Quest.InvNonDecreasing | quest_manager.py:92-100 | under the invariant the step numbers in the history never decrease |
| Quest.ReachableRecord | quest_manager.py:70-116 | from a fresh record the step stays within 1..5, an unfinished quest has one history entry per passed step, a finished one is at step 5 with a completion time, and history steps never decrease |
| Quest.CompletedRecordStillAdvances | quest_manager.py:103-106 | a completed reachable record given the final QR code is accepted again, appends one more entry and stays at step 5 |
| Quest.FullQuest | quest_manager.py:70-108 | the five correct actions from a fresh record complete the quest with five entries, at step 5, with its completion time |
| Quest.CatalogSize | quest_manager.py:7-38 | the catalog has five steps, the `total_steps` of the summary |
| Quest.GetQuestSummary | quest_manager.py:118-139 | no record gives step 1, five steps, zero done, not completed, no code; a record gives its step, its history length and its flag, and the code QUEST_COMPLETE_2024 exactly when completed |
| Quest.SummaryOfFresh | quest_manager.py:118-137 | the summary of a fresh record equals the summary of no record |
| Quest.SummaryOfReachable | quest_manager.py:129-137 | on a reachable record the summary shows a step in 1..5, step-1 steps done and no code while unfinished, and at least five steps done with the code once finished |
| Quest.DisplayName | quest_manager.py:155 | the username when it is present and non-empty, else the first name |
| Quest.GetLeaderboard | quest_manager.py:151-160 | one row per completed quest in the given order, ranked 1..n, with that user's display name and completion time |
| Sticker.Slice | sticker_generator.py:34 | Python slicing: at most j-i characters, exactly s[i..j] when j is in range |
| Sticker.ParseHex | sticker_generator.py:34 | `int(t, 16)` succeeds iff t is non-empty and all hex digits, and the value is below 16 to the power of the length |
| Sticker.ParseHexColor | sticker_generator.py:34 | a parsed colour has each channel in 0..255 |
| Sticker.FormatHexColor | sticker_generator.py:34 | the `#RRGGBB` text of a colour, the inverse the parse is checked against: seven characters starting with '#' |
| Sticker.HexPairParses | sticker_generator.py:34 | two hex digits of a channel parse back to the channel |
| Sticker.FormatParseRoundTrip | sticker_generator.py:34 | parsing the `#RRGGBB` text of any colour gives back that colour |
| Sticker.ParseDigits | sticker_generator.py:34 | a `#` and six hex digits parse to the three two-digit channel values |
| Sticker.ParsesFF6B6B | sticker_generator.py:16 | "#FF6B6B" parses to (255, 107, 107) and is a `#RRGGBB` fill |
| Sticker.Parses4ECDC4 | sticker_generator.py:17 | "#4ECDC4" parses to (78, 205, 196) and is a `#RRGGBB` fill |
| Sticker.Parses45B7D1 | sticker_generator.py:18 | "#45B7D1" parses to (69, 183, 209) and is a `#RRGGBB` fill |
| Sticker.Parses96CEB4 | sticker_generator.py:19 | "#96CEB4" parses to (150, 206, 180) and is a `#RRGGBB` fill |
| Sticker.ParsesFFEAA7 | sticker_generator.py:20 | "#FFEAA7" parses to (255, 234, 167) and is a `#RRGGBB` fill |
| Sticker.Parses2D3436 | sticker_generator.py:20 | "#2D3436" parses to (45, 52, 54) and is a `#RRGGBB` fill |
| Sticker.ParsesFFFFFF | sticker_generator.py:16-19 | "#FFFFFF" parses to (255, 255, 255) and is a `#RRGGBB` fill |
| Sticker.TemplateColorsParse | sticker_generator.py:15-21 | every template's frame and text colour parses, to the listed channel values |
| Sticker.FillColorAccepted | sticker_generator.py:39-42 | the `#RRGGBB` form of a PIL fill colour: '#' and six hex digits |
| Sticker.AcceptedColorParses | sticker_generator.py:34 | a colour in the `#RRGGBB` form also passes the gradient's slice-and-parse |
| Sticker.TemplateRenders | sticker_generator.py:26-69 | a template draws: its frame colour passes the gradient parse, and both its frame and text colours are valid fills |
| Sticker.TemplatesRender | sticker_generator.py:15-21 | every one of the five templates draws |
| Sticker.Trunc | sticker_generator.py:33 | Python `int()` of a number: the integer toward zero within 1 of it |
| Sticker.AlphaRealValue | sticker_generator.py:33 | 255 (1 - y/h) 0.8 equals 204 (h-y)/h, lies in [0, 204] and is 204 on the top row |
| Sticker.GradientAlpha | sticker_generator.py:32-33 | the row opacity is floor(204 (h-y) / h), within 0..204 and 204 at the top |
| Sticker.GradientNonIncreasing | sticker_generator.py:32-33 | the opacity never increases from a row to a lower one |
| Sticker.RowColor | sticker_generator.py:34 | a row is painted in the template's channels at an opacity within 0..204, and 204 on the top row |
| Sticker.GradientRows | sticker_generator.py:32-35 | fails iff there is a row and the colour does not parse; otherwise one entry per row, row y in the template colour at GradientAlpha(y, h) |
| Sticker.CenteredX | sticker_generator.py:55 | twice the left edge is the free width or one less; a text that fits gets margins that differ by at most one |
| Sticker.LayoutText | sticker_generator.py:53-69 | baselines at h-120 and h-60, both lines centred, shadows offset by (2, 2) and (1, 1) |
| Sticker.CutoutScale | sticker_generator.py:106-108 | the cutout scale is the least of 1 and the two side ratios: at most each and equal to one of them |
| Sticker.ScaledLength | sticker_generator.py:110-111 | `int(n * s)` for a non-negative scale: a non-negative integer within 1 below n s |
| Sticker.CutoutPlacement | sticker_generator.py:110-117 | the box is centred horizontally and in the region above the bottom 200 px, offset 50 px down, with the margins differing by at most one |
| Sticker.CompositeImages | sticker_generator.py:91-126 | a placement exists iff the cutout decodes to a positive size, and it is the centred box for the capped scale |
| Sticker.ScaleFacts | sticker_generator.py:106-108 | the cutout scale is positive, at most 1 and at most each side's ratio |
| Sticker.CutoutPlacementFits | sticker_generator.py:110-117 | for such a scale the box is no larger than the cutout nor than the region and lies in [50, W-50] x [50, H-150] |
| Sticker.CutoutFits | sticker_generator.py:101-117 | on a canvas over 100 x 200 the cutout is never enlarged, fits the region, and its box is inside the border and above the festival text line |
| Sticker.CutoutKeepsFittingSize | sticker_generator.py:106-111 | a cutout that already fits the region is pasted at its own size |
| Sticker.SimpleScale | sticker_generator.py:184-186 | the fallback scale is the lesser of the two side ratios, with no cap at 1 |
| Sticker.SimplePlacement | sticker_generator.py:176-205 | a placement exists iff the photo has a positive size |
| Sticker.SimpleBoxFits | sticker_generator.py:184-189 | the scaled photo is within 500 x 600 and fills it in one dimension |
| Sticker.SimpleEnlarges | sticker_generator.py:184-189 | a photo within 500 x 600 is never shrunk |
| Sticker.SimpleFits | sticker_generator.py:173-205 | on the 600 x 800 canvas the photo fills 500 x 600 in one dimension, small photos are enlarged, and the box lies between the border and the festival text line |
| Sticker.GenerateSticker | sticker_generator.py:128-163 | a missing or empty cutout, or one that does not decode to a positive size, gives (None, None) with no fallback; every template draws (`Sticker.TemplatesRender`), so otherwise the sticker uses the chosen template on the 800 x 800 canvas with the composite placement, and the name returned is that template's |
| Sticker.GenerateSimpleSticker | sticker_generator.py:166-218 | a sticker exists iff the photo decodes to a positive size and the template draws; it uses the 600 x 800 canvas, the circular mask and the fallback placement |
| Bot.Split | bot.py:134 | Python `split("_")`: at least one part, none containing the separator |
| Bot.SplitJoin | bot.py:125-137 | splitting joined parts that hold no separator gives back the parts |
| Bot.JoinSplit | bot.py:134 | joining the parts of a split gives back the string |
| Bot.RegisterCallback | bot.py:125 | a callback starts with "register_" and is the three fields joined by two separators after it |
| Bot.ParseRegistration | bot.py:134-137 | a selection is read iff the split has at least four parts; its fields hold no separator |
| Bot.StartsWith | bot.py:87 | `startswith`: the prefix is no longer than the string and equals its head |
| Bot.RegistrationRoundTrip | bot.py:125-137 | a callback built from fields free of '_' starts with "register_" and parses back to exactly those fields |
| Bot.OfferedSlotsRoundTrip | bot.py:25-26 | the same for every offered activity, day and time slot |
| Bot.NumberText | bot.py:121-122 | `str(n)`: a non-empty string of decimal digits |
| Bot.DecimalValue | bot.py:121-122 | the number a string of decimal digits denotes, read from the left |
| Bot.NumberTextValue | bot.py:121-122 | `str(n)` denotes n, is one digit below 10 and has no leading zero from 10 on |
| Bot.SlotButton | bot.py:121-125 | button i is for day i / 5 and slot i % 5; its callback starts with "register_" and parses back to that activity, day and slot |
| Bot.ActivityKeyboard | bot.py:121-128 | 3 x 5 slot buttons, day-major and numbered from 1, each with its text and callback, then the back button |
| Bot.SlotCallbacksDistinct | bot.py:121-126 | the slot buttons of one keyboard carry pairwise distinct callbacks |
| Bot.Route | bot.py:75-90 | a string routes to selection iff it starts with "register_", to an activity iff it is "dance" or "yoga", and nowhere iff it is no command and lacks the prefix |
| Bot.RouteCommandsDistinct | bot.py:75-90 | two commands with the same handler are the same command |
| Bot.KeyboardRoutes | bot.py:87-90 | every slot button routes to selection and parses to its slot, and the back button routes to the menu |
| Bot.Book | bot.py:145-162 | booking a slot that is present leaves the table as it is; otherwise exactly that row is appended |
| Bot.BookIdempotent | bot.py:145-162 | booking the same slot twice equals booking it once |
| Bot.BookKeepsUnique | bot.py:145-162 | booking never creates a duplicate row |
| Bot.RemoveAll | bot.py:165 | `replace(pattern, "")` never lengthens the string and keeps a first character that does not begin a match |
| Bot.RemoveAllSkipsMatch | bot.py:165 | a leading occurrence of the pattern is dropped |
| Bot.RemoveAllNoMatch | bot.py:165 | a string in which the pattern occurs nowhere is unchanged |
| Bot.DayNumber | bot.py:165 | `day.replace("day", "")` is no longer than the day, and keeps the first character of a day that does not start with "day" |
| Bot.DayNumbers | bot.py:165 | each offered day shows as its position counted from 1 |
| Bot.ActivityName | bot.py:115 | "Танцы" exactly for "dance", otherwise "Йога" |
| Bot.QuestScreenFor | bot.py:192-200 | the completion code iff completed; otherwise the current step, with the fallback text exactly when the step is outside the catalog |
| Bot.QuestScreenOfReachable | bot.py:192-200 | for any reachable record an unfinished quest shows its step's catalog description |
| Bot.PhotoResult | bot.py:259-296 | a sticker is sent iff the download succeeds and decodes to a positive size, with the chosen template; a failed download is the error reply |
| Bot.BotState.constructor | bot.py:29 | no users, no awaiting states, empty tables |
| Bot.BotState.StartCommand | bot.py:32-47 | the user becomes known; nothing else changes |
| Bot.BotState.RequestSticker | bot.py:207-219 | the user now awaits a photo; nothing else changes |
| Bot.BotState.HandlePhoto | bot.py:249-300 | a user not awaiting a photo is ignored with no effect; otherwise the reply is PhotoResult, a sent sticker is logged for a known user, and exactly that user's state is removed whatever the outcome, every other user's state kept |
| Bot.BotState.SelectRegistration | bot.py:132-175 | fails on a callback with fewer than four parts or an unknown user with no change; otherwise the table becomes Book of the row, reporting already registered exactly when it was present; the table stays free of duplicates |
| Bot.BotState.ShowQuest | bot.py:177-205 | nothing for an unknown user; otherwise a missing quest record is created at step 1 and its screen shown; an unfinished record shows its step's description, never the completion text |
| Bot.BotState.HandleCallback | bot.py:68-95 | the error reply iff the selection handler raises, with no change at all; users and the sticker log never change; `user_states` changes only for the sticker button and the quest records only for the quest button, which creates a missing record for a known user and shows its screen; a successful selection books the row and replies already registered or registered with the activity name, day number and slot |

## Left out

- Pixel work is not modelled, because it happens inside PIL, whose code is not part of this model. This covers:
  - the rectangles drawn for the gradient and the border;
  - LANCZOS resampling;
  - rasterising the ellipse mask;
  - `paste` and `putalpha`;
  - PNG encoding.
  What the model keeps of an image is its size and the placement of the pasted box.
- **Fonts:** text widths from `textbbox` are inputs. Font loading falls back to the default font and never fails, so it has no effect on the model.
- **Background removal:** `remove_background` is an HTTP call to remove.bg through aiohttp. Only its result is modelled, as an optional byte string.
- `Sticker.Trunc`, `Sticker.GradientAlpha`, `Sticker.CompositeImages`, `Sticker.SimplePlacement`: exact rational arithmetic replaces IEEE doubles. Rounding of `y / h`, `available / w` and products near an integer is not modelled.
- `Sticker.ParseHex`: accepts hex digits only. Python's `int(s, 16)` also allows a sign, surrounding whitespace, underscores between digits and a `0x` or `0X` prefix. A prefix with a digit after it takes three characters, so it cannot occur in the two-character slices the gradient parses; no template colour uses any of the others.
- `Sticker.GenerateSimpleSticker`, `Sticker.FillColorAccepted`: PIL accepts many more fill colours than `#RRGGBB`: colour names, `#rgb`, `#rrggbbaa`, `rgb(...)`, `hsl(...)` and others. Only the `#RRGGBB` form is modelled, so `Sticker.GenerateSimpleSticker` treats a template with another form of colour as one that does not draw. All five templates use `#RRGGBB`.
- `Sticker.CompositeImages`, `Sticker.SimplePlacement`: a resize to a zero width or height is not modelled as a PIL error. With a positive photo this happens only for an extremely thin image, one whose scaled side is below one pixel.
- `Quest.AdvanceQuestStep`: the two `utcnow()` readings, one for the history entry and one for the completion time, are one input `now`.
- **JSON:** `completed_steps` is kept as a sequence of entries rather than a JSON string. Decoding and encoding JSON is not modelled.
- `Quest.GetLeaderboard`:
  - the database query, its `completed == True` filter, its ordering and its `limit` are not modelled; the ordered list the query returns is an input;
  - the always-`None` `total_time` field is dropped.
- `Bot.BotState.HandlePhoto`: the log row stores the chosen template's name and the photo's file id. The timestamp and the database id are not modelled.
- **Other handlers:** the menu, map and schedule texts and all Telegram API calls are not modelled; only which screen a callback selects is kept. The same holds for the admin commands (`/admin_log`, `/reset`, `/broadcast`), the pandas CSV export, the threading in `start_bot`, the Flask admin routes and the webhook app, which are I/O around the database.
- **Database:** a failed commit in the bot's own handlers is not modelled. Only the quest engine's commit is an input.

