/**
 * The monitor window: the rolling history, the two usage labels, the
 * status line and tray icon, and the handlers that change them (the
 * one-second tick, the legend toggle, a resize, clearing the status and
 * the feedback dialog).
 */
module Monitor {
  import opened Wrappers
  import Text
  import Decimal
  import Settings
  import Strings
  import Labels
  import Usage
  import History
  import Alerts
  import Feedback

  class SystemMonitor {
    const history: History.RollingHistory
    /** The machine's memory in bytes and the memory limit as a share of it. */
    const totalMemory: real
    const maxMemoryPercent: real

    var statusVisible: bool
    var statusText: string
    var statusStyle: string
    var trayColor: string
    var trayTooltip: string

    var cpuLabel: string
    var memLabel: string
    /** Whether the legend toggle button is checked (the compact view). */
    var compact: bool
    var legendVisible: bool

    /** The numbers the two labels show. */
    ghost var cpuShown: real
    ghost var memShown: real

    /** The status line and tray icon as one value. */
    function Status(): Alerts.StatusView
      reads this
    {
      Alerts.StatusView(statusVisible, statusText, statusStyle, trayColor, trayTooltip)
    }

    /**
     * The history is full, the tray tooltip matches its colour, a shown
     * message carries the stylesheet of the tray colour, the legend is
     * shown exactly in the full view, and both labels read as a number.
     */
    ghost predicate Valid()
      reads this, history
    {
      && history.Valid()
      && Alerts.Consistent(Status())
      && Alerts.PlainColor(trayColor)
      && legendVisible == !compact
      && Labels.CpuLabelShows(cpuLabel, cpuShown)
      && Labels.MemLabelShows(memLabel, memShown, Decimal.Fixed1(maxMemoryPercent))
    }

    /** The window at start-up: empty history, no message, a green icon, zero usage in full view. */
    constructor(totalMemory: real)
      requires totalMemory > 0.0
      ensures Valid() && fresh(history)
      ensures this.totalMemory == totalMemory && maxMemoryPercent == Alerts.MaxMemoryPercent(totalMemory)
      ensures Status() == Alerts.InitialView
      ensures history.currentTime == History.MaxPoints as int
      ensures history.userCpu == History.Zeros(History.MaxPoints) && history.othersCpu == History.Zeros(History.MaxPoints)
      ensures history.userMem == History.Zeros(History.MaxPoints) && history.othersMem == History.Zeros(History.MaxPoints)
      ensures cpuShown == 0.0 && memShown == 0.0
      ensures cpuLabel == Labels.InitialCpuLabel
      ensures memLabel == Labels.MemLabelFullWithLimit(Decimal.Fixed1(0.0), Decimal.Fixed1(maxMemoryPercent))
      ensures !compact && legendVisible
    {
      history := new History.RollingHistory();
      this.totalMemory := totalMemory;
      maxMemoryPercent := Alerts.MaxMemoryPercent(totalMemory);
      statusVisible := false;
      statusText := "";
      statusStyle := Alerts.InitialStyle;
      trayColor := "green";
      trayTooltip := Alerts.TooltipFor("green");
      cpuLabel := Labels.InitialCpuLabel;
      memLabel := Labels.MemLabelFullWithLimit(Decimal.Fixed1(0.0), Decimal.Fixed1(Alerts.MaxMemoryPercent(totalMemory)));
      compact := false;
      legendVisible := true;
      cpuShown := 0.0;
      memShown := 0.0;
    }

    /** set_tray_icon_color: the icon takes the colour and the tooltip that goes with it. */
    method SetTrayIconColor(color: string)
      modifies this
      ensures Status() == old(Status()).(trayColor := color, tooltip := Alerts.TooltipFor(color))
      ensures cpuLabel == old(cpuLabel) && memLabel == old(memLabel)
      ensures compact == old(compact) && legendVisible == old(legendVisible)
      ensures cpuShown == old(cpuShown) && memShown == old(memShown)
    {
      trayColor := color;
      if color == "green" {
        trayTooltip := Strings.TrayTooltipNoAlerts;
      } else if color == "orange" {
        trayTooltip := Strings.TrayTooltipWarning;
      } else if color == "red" {
        trayTooltip := Strings.TrayTooltipAlert;
      } else {
        trayTooltip := Strings.TrayTooltipDefault;
      }
    }

    /** set_status_message; `elide` cuts a text to the window's width. */
    method SetStatusMessage(message: string, color: string, elide: string -> string)
      requires Valid() && (message != [] ==> Alerts.PlainColor(color))
      modifies this
      ensures Valid()
      ensures Status() == Alerts.SetStatus(old(Status()), message, color, elide)
      ensures cpuLabel == old(cpuLabel) && memLabel == old(memLabel) && compact == old(compact)
    {
      Alerts.SetStatusConsistent(Status(), message, color, elide);
      if message == [] {
        statusVisible := false;
        return;
      }
      statusText := elide(message);
      statusStyle := Alerts.StyleFor(color);
      statusVisible := true;
      SetTrayIconColor(color);
    }

    /** clear_status_message */
    method ClearStatusMessage()
      requires Valid()
      modifies this
      ensures Valid()
      ensures Status() == Alerts.ClearStatus(old(Status()))
      ensures cpuLabel == old(cpuLabel) && memLabel == old(memLabel) && compact == old(compact)
    {
      statusVisible := false;
      SetTrayIconColor("green");
    }

    /** The label texts for a sample in the current view. */
    function CpuText(value: real): string
      reads this
    {
      if compact then Strings.CpuLabelCompact(Decimal.Fixed1(value)) else Strings.CpuLabelFull(Decimal.Fixed1(value))
    }

    function MemText(value: real): string
      reads this
    {
      if compact then Strings.MemLabelCompact(Decimal.Fixed1(value))
      else Labels.MemLabelFullWithLimit(Decimal.Fixed1(value), Decimal.Fixed1(maxMemoryPercent))
    }

    /**
     * update_plots: one tick. `output`, `userEnv` and `cpuCount` are what
     * get_system_usage reads from `top`, `USER` and the core count, and
     * `clock` is the `%H:%M` time used in alert messages.
     */
    method UpdatePlots(output: Option<string>, userEnv: Option<string>, cpuCount: Option<int>,
                       clock: string, elide: string -> string)
      requires Valid()
      modifies this, history
      ensures Valid()
      ensures var s := Usage.SystemUsage(output, userEnv, cpuCount);
        && Status() == Alerts.TickStatus(old(Status()), s.userCpu, Alerts.MemoryGb(s.userMem, totalMemory), clock, elide)
        && history.currentTime == old(history.currentTime) + 1
        && history.times == History.DequeAppend(old(history.times), history.currentTime, History.MaxPoints)
        && history.userCpu == History.DequeAppend(old(history.userCpu), s.userCpu, History.MaxPoints)
        && history.othersCpu == History.DequeAppend(old(history.othersCpu), s.othersCpu, History.MaxPoints)
        && history.userMem == History.DequeAppend(old(history.userMem), s.userMem, History.MaxPoints)
        && history.othersMem == History.DequeAppend(old(history.othersMem), s.othersMem, History.MaxPoints)
        && cpuLabel == CpuText(s.userCpu) && memLabel == MemText(s.userMem)
      ensures compact == old(compact)
    {
      var sample := Usage.GetSystemUsage(output, userEnv, cpuCount);
      var memoryGb := Alerts.MemoryGb(sample.userMem, totalMemory);
      RunLadders(sample.userCpu, memoryGb, clock, elide);
      history.Record(sample);
      UpdateLabels(sample.userCpu, sample.userMem);
    }

    /** The memory ladder, then the CPU ladder, each writing the status line when it fires. */
    method RunLadders(userCpu: real, memoryGb: real, clock: string, elide: string -> string)
      requires Valid()
      modifies this
      ensures Valid()
      ensures Status() == Alerts.TickStatus(old(Status()), userCpu, memoryGb, clock, elide)
      ensures cpuLabel == old(cpuLabel) && memLabel == old(memLabel) && compact == old(compact)
    {
      ghost var before := Status();
      assert Alerts.PlainColor("red") && Alerts.PlainColor("orange");
      var roundedGb := Decimal.RoundHalfEven(memoryGb);
      if memoryGb >= Settings.MemoryHighThreshold {
        SetStatusMessage(Strings.StatusMemory(clock, Decimal.IntText(roundedGb)), "red", elide);
      } else if memoryGb >= Settings.MemoryMediumThreshold {
        SetStatusMessage(Strings.StatusMemory(clock, Decimal.IntText(roundedGb)), "orange", elide);
      }
      ghost var middle := Status();
      assert middle == Alerts.ApplyWrites(before, Alerts.Written(Alerts.MemoryWrite(memoryGb, clock)), elide);
      if userCpu >= Settings.CpuHighThreshold {
        SetStatusMessage(Strings.StatusCpuHigh(clock), "red", elide);
      } else if userCpu >= Settings.CpuMediumThreshold {
        SetStatusMessage(Strings.StatusCpuMedium(clock), "orange", elide);
      }
      assert Status() == Alerts.ApplyWrites(middle, Alerts.Written(Alerts.CpuWrite(userCpu, clock)), elide);
      Alerts.ApplyWritesAppend(before, Alerts.Written(Alerts.MemoryWrite(memoryGb, clock)),
                               Alerts.Written(Alerts.CpuWrite(userCpu, clock)), elide);
    }

    /** The two labels after a tick, in the template of the current view. */
    method UpdateLabels(userCpu: real, userMem: real)
      requires Valid()
      modifies this
      ensures Valid()
      ensures cpuLabel == CpuText(userCpu) && memLabel == MemText(userMem)
      ensures Status() == old(Status()) && compact == old(compact)
    {
      var cpuText, memText := CpuText(userCpu), MemText(userMem);
      assert Labels.CpuLabelShows(cpuText, userCpu) && Labels.MemLabelShows(memText, userMem, Decimal.Fixed1(maxMemoryPercent));
      cpuLabel, memLabel := cpuText, memText;
      cpuShown, memShown := userCpu, userMem;
    }

    /**
     * A click on the legend toggle: the button's checked state flips, then
     * toggle_legend shows the legend in the full view only and re-renders
     * both labels in the new view from the numbers read back out of them.
     */
    method ToggleLegend()
      requires Valid()
      modifies this
      ensures Valid()
      ensures compact == !old(compact) && legendVisible == !compact
      ensures cpuLabel == CpuText(cpuShown) && memLabel == MemText(memShown)
      ensures Decimal.Fixed1(cpuShown) == Decimal.Fixed1(old(cpuShown))
      ensures Decimal.Fixed1(memShown) == Decimal.Fixed1(old(memShown))
      ensures Status() == old(Status())
    {
      compact := !compact;
      legendVisible := !compact;
      var currentCpu, currentMem := ReadLabels();
      RenderLabels(currentCpu, currentMem);
    }

    /** The labels re-rendered in the view the legend toggle now selects. */
    method RenderLabels(cpu: real, mem: real)
      requires Valid()
      requires Decimal.Fixed1(cpu) == Decimal.Fixed1(cpuShown) && Decimal.Fixed1(mem) == Decimal.Fixed1(memShown)
      modifies this
      ensures Valid()
      ensures cpuShown == cpu && memShown == mem
      ensures cpuLabel == CpuText(cpu) && memLabel == MemText(mem)
      ensures compact == old(compact) && legendVisible == old(legendVisible) && Status() == old(Status())
    {
      var cpuText, memText;
      if legendVisible {
        cpuText := Strings.CpuLabelFull(Decimal.Fixed1(cpu));
        memText := Labels.MemLabelFullWithLimit(Decimal.Fixed1(mem), Decimal.Fixed1(maxMemoryPercent));
      } else {
        cpuText := Strings.CpuLabelCompact(Decimal.Fixed1(cpu));
        memText := Strings.MemLabelCompact(Decimal.Fixed1(mem));
      }
      assert cpuText == CpuText(cpu) && memText == MemText(mem);
      assert Labels.CpuLabelShows(cpuText, cpu) && Labels.MemLabelShows(memText, mem, Decimal.Fixed1(maxMemoryPercent));
      cpuLabel, memLabel := cpuText, memText;
      cpuShown, memShown := cpu, mem;
    }

    /** `float(label.text().split('%')[0].split(': ')[1])` for both labels. */
    method ReadLabels() returns (cpu: real, mem: real)
      requires Valid()
      ensures Labels.LabelNumber(cpuLabel) == Some(cpu) && Labels.LabelNumber(memLabel) == Some(mem)
      ensures Decimal.Fixed1(cpu) == Decimal.Fixed1(cpuShown) && Decimal.Fixed1(mem) == Decimal.Fixed1(memShown)
    {
      Labels.CpuShownNumber(cpuLabel, cpuShown);
      Labels.MemShownNumber(memLabel, memShown, Decimal.Fixed1(maxMemoryPercent));
      Decimal.RoundedRendersSame(cpuShown);
      Decimal.RoundedRendersSame(memShown);
      cpu := Labels.LabelNumber(cpuLabel).value;
      mem := Labels.LabelNumber(memLabel).value;
    }

    /**
     * resizeEvent: a shown message that ends with an ellipsis is set again
     * with its points normalised, in the colour read back from the label's
     * stylesheet. `raised` reports the IndexError Python raises when that
     * stylesheet names no colour; nothing changes then.
     */
    method ResizeEvent(elide: string -> string) returns (raised: bool)
      requires Valid()
      modifies this
      ensures Valid()
      ensures raised <==> Alerts.ResizeStatus(old(Status()), elide).None?
      ensures !raised ==> Status() == Alerts.ResizeStatus(old(Status()), elide).value
      ensures raised ==> Status() == old(Status())
      ensures !raised && trayColor == old(trayColor)
      ensures cpuLabel == old(cpuLabel) && memLabel == old(memLabel) && compact == old(compact)
    {
      raised := false;
      Alerts.ResizeKeepsColor(Status(), elide);
      if statusVisible && Text.EndsWith(statusText, "...") {
        var color := Alerts.ColorOf(statusStyle);
        if color.None? {
          raised := true;
          return;
        }
        SetStatusMessage(Alerts.NormalizeEllipsis(statusText), color.value, elide);
      }
    }

    /**
     * The feedback dialog closing. `accepted` says whether Send was
     * pressed and `text` is what was typed; the rest are what
     * send_feedback_email reads from its surroundings (see
     * Feedback.BuildFeedbackMail) and whether starting `mail` failed.
     * Returns the mail handed to `mail`, if one was built. The status shows
     * the outcome: the error in red when sending failed.
     */
    method ShowFeedbackDialog(accepted: bool, text: string,
                              userEnv: Option<string>, hostOutput: Option<string>, forward: Option<string>,
                              attachApp: bool, appCapture: Option<string>,
                              attachScreen: bool, screenCapture: Option<string>,
                              mailFails: bool, elide: string -> string)
      returns (job: Option<Feedback.MailJob>)
      requires Valid()
      modifies this
      ensures Valid()
      ensures var message := Text.Strip(text);
        var mail := Feedback.FeedbackMail(userEnv, hostOutput, message, forward,
                                          Feedback.Shot(attachApp, appCapture), Feedback.Shot(attachScreen, screenCapture));
        && job == (if accepted && message != [] then mail else None)
        && Status() == Alerts.ApplyWrites(old(Status()),
             Feedback.FeedbackWrites(accepted, message, mail.None? || mailFails), elide)
      ensures cpuLabel == old(cpuLabel) && memLabel == old(memLabel) && compact == old(compact)
    {
      job := None;
      var message := Text.Strip(text);
      var failed := false;
      if accepted && message != [] {
        job := Feedback.BuildFeedbackMail(userEnv, hostOutput, message, forward,
                                          attachApp, appCapture, attachScreen, screenCapture);
        failed := job.None? || mailFails;
      }
      ShowFeedbackOutcome(accepted, message, failed, elide);
    }

    /** The status message show_feedback_dialog leaves, given whether sending failed. */
    method ShowFeedbackOutcome(accepted: bool, message: string, failed: bool, elide: string -> string)
      requires Valid()
      modifies this
      ensures Valid()
      ensures Status() == Alerts.ApplyWrites(old(Status()), Feedback.FeedbackWrites(accepted, message, failed), elide)
      ensures cpuLabel == old(cpuLabel) && memLabel == old(memLabel) && compact == old(compact)
    {
      if !accepted {
        return;
      }
      if message != [] {
        if failed {
          SetStatusMessage(Strings.FeedbackError, "red", elide);
        } else {
          SetStatusMessage(Strings.FeedbackSuccess, "green", elide);
        }
      } else {
        SetStatusMessage(Strings.FeedbackEmpty, "orange", elide);
      }
    }
  }
}
