/** Configuration constants of the monitor (settings.py). */
module Settings {
  /** Address that feedback mail is sent to. */
  const FeedbackEmail := "your-email@your-domain.something"

  /** Memory alert thresholds, in GB. */
  const MemoryHighThreshold: real := 80.0
  const MemoryMediumThreshold: real := 50.0

  /** CPU alert thresholds, in percent of the whole machine. */
  const CpuHighThreshold: real := 40.0
  const CpuMediumThreshold: real := 20.0

  /** The per-user memory limit, in GB. */
  const MemoryLimitGb: nat := 100

  /** Bytes in one GB as the monitor counts them (1024 * 1024 * 1024). */
  const BytesPerGb: real := 1073741824.0
}

/**
 * The user-visible texts of the monitor (strings.py). A template with
 * placeholders becomes a function of the texts that fill them; a value
 * that strings.py takes from Settings through an f-string is written out
 * as the text Python renders for it (`20.0` for `CpuMediumThreshold`).
 */
module Strings {
  const TrayTooltipNoAlerts := "Simple Usage Monitor: No alerts"
  const TrayTooltipWarning := "Simple Usage Monitor: Warning"
  const TrayTooltipAlert := "Simple Usage Monitor: Alert"
  const TrayTooltipDefault := "Simple Usage Monitor"

  function StatusCpuHigh(clock: string): string {
    "[" + clock + "] CPU Usage at or above 40.0%"
  }

  function StatusCpuMedium(clock: string): string {
    "[" + clock + "] CPU Usage at or above 20.0%"
  }

  /** STATUS_MEM_HIGH and STATUS_MEM_MEDIUM are the same template. */
  function StatusMemory(clock: string, gb: string): string {
    "[" + clock + "] Memory consumption at " + gb + " GB"
  }

  const FeedbackSuccess := "Thank you for your feedback!"
  const FeedbackEmpty := "Feedback was empty, not sent."
  const FeedbackError := "Error sending feedback. Please try again."

  function FeedbackEmailSubject(user: string, host: string): string {
    "SimpleUsageMonitor Feedback from " + user + " on " + host
  }

  function FeedbackEmailContent(user: string, host: string, message: string): string {
    "This is Feedback from user " + user + " on " + host + "\n\n" + message
  }

  const FeedbackAppScreenshotMsg := "\n\n[Application screenshot attached]"
  const FeedbackScreenScreenshotMsg := "\n\n[Full screen screenshot attached]"

  /** The label templates, each `<name>: <value>%<tail>`. */
  const CpuLabelName := "My CPU Usage"
  const MemLabelName := "My Memory Usage"

  function CpuLabelFull(value: string): string {
    CpuLabelName + ": " + value + "%" + " (Should not exceed 20.0%)"
  }

  function CpuLabelCompact(value: string): string {
    CpuLabelName + ": " + value + "%"
  }

  function MemLabelFull(value: string, limit: string): string {
    MemLabelName + ": " + value + "%" + " (Cannot exceed " + limit + "%)"
  }

  function MemLabelCompact(value: string): string {
    MemLabelName + ": " + value + "%"
  }
}
