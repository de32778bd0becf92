# Simple Usage Monitor — a Dafny model

Simple Usage Monitor is a desktop window for shared Linux hosts. It shows
the current user's share of CPU and memory next to everyone else's. Once a
second it runs `top` once and sums the process table by owner. It appends
the sample to four 60-point rolling histories and draws them as stacked
area charts. It updates two text labels. Above-threshold usage raises a
status message, and the tray icon takes the message's colour. A feedback
dialog mails a report, optionally with screenshots, through the system
`mail` command.

This project models that core in Dafny:

- `Usage` covers `get_system_usage`:
  - the header skip;
  - the per-line filter and tokenising;
  - the `%CPU`/`%MEM` column scan;
  - the sums by owner;
  - the per-core scaling and the clamping;
  - the all-zero fallback.
- `History` covers the deques with `maxlen`, the time counter, the reversed views drawn against the fixed axis 60..1, and the stacked series.
- `Alerts` covers the status line and tray icon as one value:
  - `set_status_message`, `clear_status_message`, `set_tray_icon_color`;
  - the memory and CPU threshold ladders;
  - the colour read back from a stylesheet;
  - the ellipsis normalisation of `resizeEvent`.
- `Labels` and `Decimal` cover the label templates, `{:.1f}` rendering, and the `float(...)` read-back done by `toggle_legend`.
- `Feedback` covers `send_feedback_email`: the user and host names, the `.forward` sender, the attachments, and the `mail` argument vector and body.
- `Monitor` is the window itself, a class whose methods are the event handlers: `update_plots`, `toggle_legend`, `resizeEvent`, `show_feedback_dialog`, and the status setters.

Alerts do not latch at the highest level reached: every write replaces the status, so the last ladder to fire in a tick decides it (`Alerts.LastWriteWins`, `Alerts.OrangeReplacesRed`).

The names `USER`, the core count, the output of `top` and of `hostname`, the `.forward` file, screenshot captures, the wall clock (`%H:%M`) and Qt's text elision are parameters of the model. `None` stands for "unset" or "the call failed".

## Model

| member | source | states |
|---|---|---|
| Usage.SystemUsage | SimpleUsageMonitor.py:322-410 | the sample is always within 0..100 in all four fields |
| Usage.GetSystemUsage | SimpleUsageMonitor.py:322-410 | the imperative procedure (line loop, column scan, counters, scaling) computes exactly `SystemUsage` of the `top` output, `USER` and the core count |
| Usage.SumTable | SimpleUsageMonitor.py:348-386 | the counter loop over the lines after the header ends with the sums `SumRows` of the rows those lines contribute |
| Usage.ParseRow | SimpleUsageMonitor.py:353-386 | the loop body: a blank line, a line with fewer than ten tokens, or a line whose CPU or memory column is not a number contributes nothing; otherwise the owner in column 1 with the two values |
| Usage.ScanColumns | SimpleUsageMonitor.py:359-368 | the column scan picks the last token containing `%CPU` for CPU and the last one containing `%MEM` but not `%CPU` for memory; otherwise columns 8 and 9 |
| Usage.Columns | SimpleUsageMonitor.py:359-368 | each chosen column is its default or an index inside the row |
| Usage.Accumulate | SimpleUsageMonitor.py:375-382 | a counted row adds to the totals, and to the user's sums exactly when its owner is the user |
| Usage.ToSample | SimpleUsageMonitor.py:388-405 | the tail computes `UsageOf`: the others are total minus user, CPU is divided per core, everything is clamped |
| Usage.Scale | SimpleUsageMonitor.py:388-403 | the scaled sample lies within 0..100 |
| Usage.UsageOf | SimpleUsageMonitor.py:395-410 | an unknown or zero core count yields a sample in range (the all-zero fallback of the exception handler) |
| Usage.Clamp | SimpleUsageMonitor.py:400-403 | `min(100, max(0, x))`: values in range are kept, negatives become 0, values over 100 become 100 |
| Usage.Rows | SimpleUsageMonitor.py:353 | one contribution per line |
| Usage.DataLines | SimpleUsageMonitor.py:351 | the candidate rows are the stripped output's lines from the eighth on, in order; none when there are seven lines or fewer |
| Usage.ParseLine | SimpleUsageMonitor.py:353-373 | a line with fewer than ten tokens (a blank one included) contributes nothing; a counted line's owner is its token 1, never empty |
| Usage.SumRows | SimpleUsageMonitor.py:375-382 | when no row is counted, all four sums stay at their starting zeros |
| Usage.SumsByOwner | SimpleUsageMonitor.py:375-390 | the totals are the sums over all counted rows; the user's sums are over the rows the user owns; total minus user is exactly the sum over the rows others own |
| Usage.SumRowsAppend | SimpleUsageMonitor.py:353-386 | summing a table split in two parts gives the merge of the two parts' sums |
| Usage.SkippedRowNeutral | SimpleUsageMonitor.py:384-386 | a skipped line leaves the sums of the other lines unchanged |
| Usage.MarkedRowDropped | SimpleUsageMonitor.py:364-372 | a row that contains a `%CPU` or `%MEM` header token is never counted, since the chosen column then holds a non-number |
| Usage.LastCpuMarkerWins | SimpleUsageMonitor.py:364-366 | the CPU column is the last token containing `%CPU` |
| Usage.LastMemMarkerWins | SimpleUsageMonitor.py:364-368 | the memory column is the last token containing `%MEM` and not `%CPU` (the `elif`) |
| Usage.DefaultColumnsRead | SimpleUsageMonitor.py:359-373 | without header tokens, a row counts exactly when columns 8 and 9 are numbers, with owner column 1 and those two values |
| Usage.UnsetUserOwnsNothing | SimpleUsageMonitor.py:332-382 | with `USER` unset (the empty default), no row is the user's and the user's sums are 0 |
| Usage.UnsetUserSample | SimpleUsageMonitor.py:332-405 | with `USER` unset, the user's CPU and memory are 0 |
| Usage.FailureGivesZeros | SimpleUsageMonitor.py:395-410 | when `top` fails, or the core count is unknown or zero, the sample is all zeros |
| Usage.HeaderOnlyGivesZeros | SimpleUsageMonitor.py:351 | output of seven or fewer lines has no rows, so the sample is all zeros |
| Usage.TwoCoreExample | SimpleUsageMonitor.py:353-405 | a worked table for user alice on two cores, with rows alice 10/5, bob 30/20 and alice 5/5 (CPU/memory): user 7.5% CPU, others 15% CPU, user 10% memory, others 20% memory |
| Usage.PerCoreAdds | SimpleUsageMonitor.py:395-397 | the per-core scaling distributes over a sum and is a division by the core count |
| Usage.UnclampedPartsAddUp | SimpleUsageMonitor.py:389-403 | when nothing is clamped, user plus others is the whole table: total CPU per core, total memory |
| History.DequeAppend | SimpleUsageMonitor.py:151-155 | `deque.append` with `maxlen`: the new value is last, the length grows to at most `maxlen`, and the result is the last `maxlen` of old-plus-new |
| History.FullDequeWindow | SimpleUsageMonitor.py:458-462 | a full deque after n appends holds the last 60 of everything appended |
| History.Consecutive | SimpleUsageMonitor.py:151-158 | the time buffer holds 60 consecutive counter values ending at the current one |
| History.ConsecutiveStep | SimpleUsageMonitor.py:436-458 | appending the incremented counter keeps the times consecutive |
| History.RollingHistory.constructor | SimpleUsageMonitor.py:150-158 | times 1..60, four zero buffers, counter at 60 |
| History.RollingHistory.Record | SimpleUsageMonitor.py:458-462 | the counter goes up by one (line 436) and each of the five buffers is the deque append of its new value; buffers stay at 60 percentages |
| History.AppendKeepsPercent | SimpleUsageMonitor.py:459-462 | appending a value in 0..100 keeps a buffer of percentages |
| History.Zeros | SimpleUsageMonitor.py:152-155 | n zeros, all percentages |
| History.Reversed | SimpleUsageMonitor.py:478-484 | `list(reversed(d))`: element k is element n-1-k |
| History.ReversedTwice | SimpleUsageMonitor.py:478-484 | reversing twice gives the buffer back |
| History.FixedTimes | SimpleUsageMonitor.py:474 | `range(60, 0, -1)`: 60 positions, position k is 60-k |
| History.DrawnAt | SimpleUsageMonitor.py:474-485 | the value drawn at x-position t is the buffer's element t-1: the oldest sample at 1, the newest at 60 |
| History.Stacked | SimpleUsageMonitor.py:414 | the stacked series has one point per sample |
| History.StackedBands | SimpleUsageMonitor.py:414-426 | the band between the user line and the stacked line is exactly the others' usage, and the stacked line lies between the user's value and 200 |
| History.StackedReversed | SimpleUsageMonitor.py:477-485 | stacking the reversed buffers equals reversing the stacked buffer |
| History.ChartOf | SimpleUsageMonitor.py:412-430 | the user fill runs from 0 to the user series; the others fill runs from the user series to user+others; the lines are the user series and the stacked series |
| History.ChartBandsOrdered | SimpleUsageMonitor.py:412-430 | for the drawn charts, each fill's lower curve is never above its upper curve |
| Alerts.TooltipFor | SimpleUsageMonitor.py:258-268 | each tooltip goes with exactly one colour: green gives no alerts, orange a warning, red an alert |
| Alerts.OtherColorsDefault | SimpleUsageMonitor.py:267-268 | any other colour gives the default tooltip |
| Alerts.SetStatus | SimpleUsageMonitor.py:595-614 | an empty message only hides the label; any other message is shown elided, with the stylesheet of its colour, and the tray takes that colour and its tooltip |
| Alerts.ClearStatus | SimpleUsageMonitor.py:616-621 | the label is hidden, the tray turns green with the no-alerts tooltip, and the text and stylesheet stay |
| Alerts.InitialConsistent | SimpleUsageMonitor.py:248 | at start-up the tray is green (set during tray setup) and the tooltip matches it |
| Alerts.SetStatusConsistent | SimpleUsageMonitor.py:595-621 | setting and clearing keep the tooltip matching the tray colour, and keep a shown message's stylesheet naming that colour |
| Alerts.WritesConsistent | SimpleUsageMonitor.py:595-614 | any sequence of status writes keeps that consistency |
| Alerts.ApplyWritesAppend | SimpleUsageMonitor.py:447-455 | applying two runs of writes in turn equals applying them joined |
| Alerts.LastWriteWins | SimpleUsageMonitor.py:595-614 | after a run of writes, the status is determined by the last non-empty write alone; nothing latches |
| Alerts.MaxMemoryPercent | SimpleUsageMonitor.py:172-174 | the limit as a share of memory lies in (0, 100], and it is 100 exactly when the machine has no more memory than the limit |
| Alerts.MaxMemoryPercentIsLimit | SimpleUsageMonitor.py:172-174 | on a machine larger than the limit, converting the maximum share to GB as the memory ladder does (line 442) gives exactly the limit in GB |
| Alerts.TickWrites | SimpleUsageMonitor.py:446-455 | a tick makes at most two writes (memory, then CPU), each non-empty and red or orange |
| Alerts.LaddersPick | SimpleUsageMonitor.py:447-455 | each ladder is red at or above its high threshold, orange at or above its medium one, silent below |
| Alerts.LadderMonotone | SimpleUsageMonitor.py:447-455 | a higher value never gets a less severe colour |
| Alerts.CpuOverridesMemory | SimpleUsageMonitor.py:447-455 | when the CPU ladder fires, its message and colour are what the tick leaves, whatever the memory ladder did |
| Alerts.MemoryAlone | SimpleUsageMonitor.py:442-450 | when only memory fires, the status shows the memory message with the rounded GB, red at 80 GB and above, otherwise orange |
| Alerts.OrangeReplacesRed | SimpleUsageMonitor.py:452-455 | a red status is replaced by orange when CPU is in the medium band |
| Alerts.QuietTickKeepsStatus | SimpleUsageMonitor.py:446-455 | below both medium thresholds the status is untouched |
| Alerts.WritesKeepVisible | SimpleUsageMonitor.py:595-611 | non-empty writes never hide a shown message |
| Alerts.TickKeepsVisible | SimpleUsageMonitor.py:446-455 | a tick never hides a shown message |
| Alerts.ColorRoundTrip | SimpleUsageMonitor.py:634 | the colour read back from the stylesheet written at line 610 is the colour written, for a colour without `:` or `;` |
| Alerts.ColorCutAtSemicolon | SimpleUsageMonitor.py:634 | a colour containing `;` is read back only up to the first `;` |
| Alerts.InitialStyleHasNoColor | SimpleUsageMonitor.py:634 | the start-up stylesheet (line 134) names no colour, so reading one raises |
| Alerts.StyleFor | SimpleUsageMonitor.py:610 | the stylesheet starts with the fixed font and padding settings and ends with `color: <colour>;` |
| Alerts.ColorOf | SimpleUsageMonitor.py:634 | `split('color: ')[1].split(';')[0]`: a colour is read exactly when the stylesheet contains `color: `, and it holds no `;`; None where Python raises IndexError |
| Alerts.NormalizeEllipsis | SimpleUsageMonitor.py:633 | the result ends in `...`, strips to the same stem as the input, and is that stem followed by exactly three points (three characters longer) |
| Alerts.ResizeStatus | SimpleUsageMonitor.py:623-634 | None (the IndexError) exactly for a shown text ending in `...` whose stylesheet names no colour; a hidden status or one without an ellipsis is left as it is; visibility is kept |
| Alerts.MemoryWrite | SimpleUsageMonitor.py:447-450 | the memory ladder writes exactly at or above 50 GB: red from 80 GB, otherwise orange, with the time and the GB rounded half to even |
| Alerts.CpuWrite | SimpleUsageMonitor.py:452-455 | the CPU ladder writes exactly at or above 20%: the high message in red from 40%, otherwise the medium one in orange |
| Alerts.TickStatus | SimpleUsageMonitor.py:441-455 | a tick never hides a shown message and keeps the status consistent |
| Alerts.NormalizeEllipsisFacts | SimpleUsageMonitor.py:633 | `rstrip('.') + "..."` ends in `...`, strips to the same stem, is exactly three characters longer than that stem, and is idempotent |
| Alerts.ResizeKeepsColor | SimpleUsageMonitor.py:623-634 | for a consistent status with a plain colour, a resize never raises, keeps colour and visibility, leaves a status without an ellipsis as it is, and re-elides the normalised text otherwise |
| Labels.LabelValueTextCases | SimpleUsageMonitor.py:502-503 | a value is extracted exactly when `: ` occurs before the first `%` (otherwise Python raises IndexError); the value extracted holds no `: ` |
| Labels.LabelNumberNumeral | SimpleUsageMonitor.py:502-503 | a label reads as a number only when its extracted value text exists and consists of numeral characters |
| Labels.TemplatesGiveBackValue | SimpleUsageMonitor.py:502-503 | each label template read back with `split('%')[0].split(': ')[1]` gives back the value text it was filled with |
| Labels.LabelNumberOfRendered | SimpleUsageMonitor.py:502-503 | a label rendered with `{:.1f}` reads back as the value rounded to one decimal, in every template |
| Labels.RerenderKeepsNumber | SimpleUsageMonitor.py:502-510 | re-rendering a read-back number gives a label that reads back as the same number |
| Labels.InitialCpuLabelIsZero | SimpleUsageMonitor.py:162 | the start-up CPU label reads back as 0 when the legend toggle parses it |
| Labels.CpuShownNumber | SimpleUsageMonitor.py:502 | any CPU label the window can show reads back as its value rounded to a tenth |
| Labels.MemShownNumber | SimpleUsageMonitor.py:503 | any memory label the window can show reads back as its value rounded to a tenth |
| Decimal.ParseDecimal | SimpleUsageMonitor.py:371-372 | `float(token)`: a token read as a number consists of digits, signs and points only |
| Decimal.Fixed1ReadsBack | strings.py:66-69 | `float` of the `{:.1f}` rendering of x is x rounded to the nearest tenth |
| Decimal.Fixed1Close | strings.py:66-69 | the `{:.1f}` rendering reads back within half a tenth of the exact value |
| Decimal.FormatTenthsRoundTrip | strings.py:66-69 | `float` of a `{:.1f}` rendering gives exactly the rendered value |
| Decimal.Fixed1Stable | SimpleUsageMonitor.py:502-510 | render, read back, render again: the text does not change |
| Decimal.RoundedRendersSame | SimpleUsageMonitor.py:502-510 | the read-back number renders as the original did |
| Decimal.RejectsNonNumeral | SimpleUsageMonitor.py:371-372 | a token with a character such as `%` is not a number |
| Decimal.RoundHalfEven | SimpleUsageMonitor.py:444 | `round(x)` is within half of x, and ties go to the even integer |
| Feedback.UserName | SimpleUsageMonitor.py:656 | `USER` when set, else `unknown_user` |
| Feedback.AttachOptions | SimpleUsageMonitor.py:701-702 | two arguments per attachment |
| Feedback.AttachOptionsAt | SimpleUsageMonitor.py:701-702 | argument 2k is `-a` and 2k+1 is the k-th path |
| Feedback.MailArgv | SimpleUsageMonitor.py:672-704 | the command starts with `mail`, then `-r` and the sender when there is one; it has two arguments per attachment and ends with `-s`, the subject and the feedback address |
| Feedback.FeedbackMail | SimpleUsageMonitor.py:652-708 | a mail is built exactly when `hostname` succeeded; it goes to the feedback address with the subject naming the user and stripped host, and its body starts with the templated message |
| Feedback.MailArgvShape | SimpleUsageMonitor.py:672-704 | the command is `mail`, then `-r` and the sender when there is one, then the `-a` pairs in order, then `-s`, the subject and the feedback address last |
| Feedback.AssembleMailCommand | SimpleUsageMonitor.py:672-704 | the argument list built step by step equals `MailArgv` |
| Feedback.NoForwardNoSender | SimpleUsageMonitor.py:666-674 | without a `.forward` file, or with a blank one, no `-r` is passed |
| Feedback.FeedbackMailShape | SimpleUsageMonitor.py:656-704 | the subject names the user and the stripped host name; the mail goes last to the feedback address; the app screenshot comes right after the sender options and the screen one is the last attachment; without attachments the body is the templated message, and with both it carries both notes, app first |
| Feedback.BuildFeedbackMail | SimpleUsageMonitor.py:652-708 | the procedure builds exactly `FeedbackMail`: nothing when `hostname` fails, otherwise the argv and body, with a screenshot attached only when it was requested and captured |
| Feedback.ErrorOverwritten | SimpleUsageMonitor.py:646-648 | as written, a failed send ends in the same status as a successful one: green, thanking the user |
| Feedback.ErrorOverwrittenExample | SimpleUsageMonitor.py:646-648 | on the text "bug" with `hostname` failing, no mail is built, yet the status ends green with the success text |
| Feedback.FeedbackWritesAsWritten | SimpleUsageMonitor.py:641-650 | as written: a cancelled dialog writes nothing; otherwise the last write is success for a non-blank text and the empty message for a blank one; the error is written exactly for a non-blank text whose send failed, and is then overwritten |
| Feedback.FeedbackWrites | SimpleUsageMonitor.py:641-650 | corrected: one write for an accepted dialog, none otherwise; the empty message for a blank text; for a non-blank one the error exactly when the send failed and success exactly when it did not |
| Feedback.FeedbackOutcomeShown | SimpleUsageMonitor.py:641-650 | corrected: a cancelled dialog changes nothing; an empty text shows the empty message in orange; a failed send shows the error in red; a successful one shows success in green |
| Feedback.CorrectionOnlyOnFailure | SimpleUsageMonitor.py:646-650 | the correction changes nothing when the send succeeds |
| Monitor.SystemMonitor.constructor | SimpleUsageMonitor.py:132-179 | start-up: times 1..60 ending at 60, all four usage buffers zero, hidden status and green tray, the zero CPU label, the memory label with the limit share, shown values 0, the full view |
| Monitor.SystemMonitor.SetTrayIconColor | SimpleUsageMonitor.py:253-268 | the tray takes the colour and its tooltip; nothing else changes |
| Monitor.SystemMonitor.SetStatusMessage | SimpleUsageMonitor.py:595-614 | the status becomes `SetStatus` of the old one; labels and view are unchanged; the window stays consistent |
| Monitor.SystemMonitor.ClearStatusMessage | SimpleUsageMonitor.py:616-621 | the status becomes `ClearStatus` of the old one |
| Monitor.SystemMonitor.UpdatePlots | SimpleUsageMonitor.py:433-471 | one tick: the status goes through the memory ladder then the CPU ladder on the sample; the counter goes up; the five buffers take the new values; the labels show the sample in the current view |
| Monitor.SystemMonitor.RunLadders | SimpleUsageMonitor.py:441-455 | the imperative ladders leave exactly `TickStatus` of the old status |
| Monitor.SystemMonitor.UpdateLabels | SimpleUsageMonitor.py:464-471 | the labels are the compact or full templates of the sample, as the toggle says |
| Monitor.SystemMonitor.ToggleLegend | SimpleUsageMonitor.py:495-510 | the view flips and the legend shows exactly in the full view; both labels are re-rendered in the new view with the same one-decimal numbers; the status is untouched |
| Monitor.SystemMonitor.ReadLabels | SimpleUsageMonitor.py:502-503 | reading either label never raises and gives a number that renders as the label shows |
| Monitor.SystemMonitor.RenderLabels | SimpleUsageMonitor.py:505-510 | the labels are the new view's templates of the read-back numbers |
| Monitor.SystemMonitor.ResizeEvent | SimpleUsageMonitor.py:623-634 | the status becomes `ResizeStatus` of the old one; it raises exactly when the stylesheet names no colour, and then nothing changes; from any valid window (whose tray colour is one of the literal colours the program writes) it never raises and the colour stays |
| Monitor.SystemMonitor.ShowFeedbackDialog | SimpleUsageMonitor.py:636-650 | a mail is built only for an accepted, non-blank, stripped text; the status then shows the corrected outcome, with the error when `hostname` or `mail` failed |
| Monitor.SystemMonitor.ShowFeedbackOutcome | SimpleUsageMonitor.py:646-650 | the status after the dialog is the corrected writes applied to the old status |

## Left out

- Qt, the pyqtgraph drawing, window layout, the toolbar, the minimal view (`toggle_minimal`), the tray menu and window show/hide are presentation, outside the logic modelled. Only the values handed to the charts are modelled (`History.ChartOf`).
- QSettings persistence (`save_settings`, `restore_settings`, `closeEvent`) is storage of a window geometry and two flags, and is not modelled. The compact flag starts unchecked.
- The guideline and legend text and the memory-limit line in the chart are static presentation.
- The QTimer that drives `update_plots` is not modelled. Each call of `Monitor.SystemMonitor.UpdatePlots` is one tick, and `clock` is the `%H:%M` text from `datetime.now()`.
- `subprocess`, `psutil`, `os.environ`, the `.forward` file and screen grabs become parameters.
- The temporary files of screenshots and their removal are not modelled. A capture is a parameter holding the path, or `None` when grabbing failed.
- The message piped to `mail` is the `body` of the mail job. Whether `mail` then fails is the parameter `mailFails`.
- Messages printed to the console are left out.
- `QFontMetrics.elidedText` is the function parameter `elide`.
- Floating point is modelled with exact reals:
  - `{:.1f}` is rounding to a tenth with halves rounded up, where Python's binary rounding can differ on ties;
  - `round` is round-half-even on the exact value;
  - the core-count division and the GB conversion are exact.
- Decimal.ParseDecimal accepts plain decimal notation only (sign, digits, one point). Python's `float` also accepts exponents, `inf`, `nan`, surrounding whitespace, underscores between digits (`1_0`) and non-ASCII decimal digits. Those forms are treated as non-numbers.
- Text.IsSpace uses a fixed set of whitespace code points for `str.split()` and `str.strip()`. It does not consult the full Unicode tables.
- Monitor.SystemMonitor.SetStatusMessage requires a colour without `:` or `;` when the message is non-empty. Every call in the source passes the literal `green`, `orange` or `red`, or the colour read back from the label. The window's invariant keeps the tray colour plain.
- Python's IndexError in `resizeEvent` propagates to Qt. Here it is the `raised` result, and the status is left unchanged.
- Alerts.MaxMemoryPercent requires a positive memory size. Python divides by it and would raise on zero, which `psutil` never reports.
- History.RollingHistory.Record increments the counter and appends in one step. In the source, the status ladders run between the two. No state is shared between them.
- Monitor.SystemMonitor.ToggleLegend states that the labels keep their one-decimal text rather than their exact number. The label only holds the rounded text, and the source re-renders the rounded number.
- Monitor.SystemMonitor.ShowFeedbackDialog, Monitor.SystemMonitor.ShowFeedbackOutcome: show the error in red after a failed send, where the code as written (SimpleUsageMonitor.py:647-648) overwrites it with the green success message. They use the corrected writes (see Findings). The code as written is modelled by `Feedback.FeedbackWritesAsWritten`.

## Findings

| source | as written | input that shows it | evidently intended | confidence | as-written member | corrected member |
|---|---|---|---|---|---|---|
| SimpleUsageMonitor.py:646-648 | `send_feedback_email` (lines 718-721) catches its own failure and shows the red error. `show_feedback_dialog` then unconditionally shows the green success message over it. | Feedback text "bug" with `hostname` failing: no mail is sent, and the status ends green with "Thank you for your feedback!" | A failed send leaves the red error visible; success is shown only when the mail was handed to `mail` | not executed | Feedback.ErrorOverwrittenExample | Feedback.FeedbackOutcomeShown |
