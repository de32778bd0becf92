/**
 * Sending feedback: the `mail` command line and message body built from
 * the dialog, and the status message shown afterwards.
 */
module Feedback {
  import opened Wrappers
  import Text
  import Settings
  import Strings
  import Alerts

  /** The user name used when `USER` is not set. */
  const DefaultUser := "unknown_user"

  /** `os.environ.get('USER', 'unknown_user')` */
  function UserName(userEnv: Option<string>): (u: string)
    ensures userEnv.None? ==> u == DefaultUser
    ensures userEnv.Some? ==> u == userEnv.value
  {
    userEnv.GetOr(DefaultUser)
  }

  /**
   * The sender address: the stripped contents of `~/.forward`, or the empty
   * text (which adds no `-r` option) when the file does not exist.
   */
  function FromAddress(forward: Option<string>): string {
    match forward
    case None => ""
    case Some(contents) => Text.Strip(contents)
  }

  /** `-a <path>` for every attachment, in order. */
  function AttachOptions(paths: seq<string>): (r: seq<string>)
    ensures |r| == 2 * |paths|
    decreases |paths|
  {
    if |paths| == 0 then [] else ["-a", paths[0]] + AttachOptions(paths[1..])
  }

  lemma {:induction false} AttachOptionsSnoc(paths: seq<string>, p: string)
    ensures AttachOptions(paths + [p]) == AttachOptions(paths) + ["-a", p]
    decreases |paths|
  {
    if |paths| == 0 {
      assert paths + [p] == [p];
    } else {
      assert (paths + [p])[1..] == paths[1..] + [p];
      AttachOptionsSnoc(paths[1..], p);
    }
  }

  /** Where each attachment lands among the `-a` options. */
  lemma {:induction false} AttachOptionsAt(paths: seq<string>)
    ensures forall k :: 0 <= k < |paths| ==>
      AttachOptions(paths)[2 * k] == "-a" && AttachOptions(paths)[2 * k + 1] == paths[k]
    decreases |paths|
  {
    if |paths| > 0 {
      AttachOptionsAt(paths[1..]);
      var r := AttachOptions(paths);
      forall k | 1 <= k < |paths|
        ensures r[2 * k] == "-a" && r[2 * k + 1] == paths[k]
      {
        assert r[2 * k] == AttachOptions(paths[1..])[2 * (k - 1)];
        assert r[2 * k + 1] == AttachOptions(paths[1..])[2 * (k - 1) + 1];
      }
    }
  }

  /** The options that name the sender: none when there is no address. */
  function SenderOptions(from: string): seq<string> {
    if from == [] then [] else ["-r", from]
  }

  /** The full command line: `mail [-r from] (-a path)* -s subject <address>`. */
  function MailArgv(from: string, paths: seq<string>, subject: string): (argv: seq<string>)
    ensures |argv| == (if from == [] then 1 else 3) + 2 * |paths| + 3
    ensures argv[0] == "mail" && (from != [] ==> argv[1] == "-r" && argv[2] == from)
    ensures argv[|argv| - 3] == "-s" && argv[|argv| - 2] == subject && argv[|argv| - 1] == Settings.FeedbackEmail
  {
    ["mail"] + SenderOptions(from) + AttachOptions(paths) + ["-s", subject, Settings.FeedbackEmail]
  }

  /** The command line position by position. */
  lemma MailArgvShape(from: string, paths: seq<string>, subject: string)
    ensures var argv := MailArgv(from, paths, subject);
      var off := if from == [] then 1 else 3;
      && |argv| == off + 2 * |paths| + 3
      && argv[0] == "mail"
      && (from != [] ==> argv[1] == "-r" && argv[2] == from)
      && (forall k :: 0 <= k < |paths| ==> argv[off + 2 * k] == "-a" && argv[off + 2 * k + 1] == paths[k])
      && argv[|argv| - 3] == "-s" && argv[|argv| - 2] == subject && argv[|argv| - 1] == Settings.FeedbackEmail
  {
    var argv := MailArgv(from, paths, subject);
    var off := if from == [] then 1 else 3;
    var head := ["mail"] + SenderOptions(from);
    assert |head| == off;
    AttachOptionsAt(paths);
    forall k | 0 <= k < |paths|
      ensures argv[off + 2 * k] == "-a" && argv[off + 2 * k + 1] == paths[k]
    {
      assert argv[off + 2 * k] == AttachOptions(paths)[2 * k];
      assert argv[off + 2 * k + 1] == AttachOptions(paths)[2 * k + 1];
    }
  }

  /** `mail_cmd` as send_feedback_email extends it step by step. */
  method AssembleMailCommand(from: string, paths: seq<string>, subject: string) returns (cmd: seq<string>)
    ensures cmd == MailArgv(from, paths, subject)
  {
    cmd := ["mail"];
    if from != [] {
      cmd := cmd + ["-r", from];
    }
    var head := cmd;
    for i := 0 to |paths|
      invariant cmd == head + AttachOptions(paths[..i])
    {
      AttachOptionsSnoc(paths[..i], paths[i]);
      assert paths[..i + 1] == paths[..i] + [paths[i]];
      cmd := cmd + ["-a", paths[i]];
    }
    assert paths[..|paths|] == paths;
    cmd := cmd + ["-s", subject, Settings.FeedbackEmail];
  }

  /**
   * A requested screenshot is attached when its capture succeeded;
   * `capture` is the temporary file it was saved to, None when it failed.
   */
  function Shot(requested: bool, capture: Option<string>): Option<string> {
    if requested then capture else None
  }

  function Present(p: Option<string>): seq<string> {
    match p
    case None => []
    case Some(x) => [x]
  }

  /** The note added to the body for an attached screenshot. */
  function Note(p: Option<string>, note: string): string {
    if p.Some? then note else ""
  }

  /** What is handed to `mail`: its command line and the text on its standard input. */
  datatype MailJob = MailJob(argv: seq<string>, body: string)

  /**
   * send_feedback_email up to the point where `mail` is started. The host
   * name is the output of `hostname`, None when that command failed, in
   * which case nothing is sent.
   */
  function FeedbackMail(userEnv: Option<string>, hostOutput: Option<string>, message: string,
                        forward: Option<string>, app: Option<string>, screen: Option<string>): (job: Option<MailJob>)
    ensures job.Some? <==> hostOutput.Some?
    ensures job.Some? ==> var user, host := UserName(userEnv), Text.Strip(hostOutput.value);
      && |job.value.argv| >= 2
      && job.value.argv[|job.value.argv| - 2] == Strings.FeedbackEmailSubject(user, host)
      && job.value.argv[|job.value.argv| - 1] == Settings.FeedbackEmail
      && Strings.FeedbackEmailContent(user, host, message) <= job.value.body
  {
    match hostOutput
    case None => None
    case Some(out) =>
      var user, host := UserName(userEnv), Text.Strip(out);
      var content := Strings.FeedbackEmailContent(user, host, message);
      var body := content + Note(app, Strings.FeedbackAppScreenshotMsg) + Note(screen, Strings.FeedbackScreenScreenshotMsg);
      assert content <= body by {
        assert body[..|content|] == content;
      }
      Some(MailJob(
        MailArgv(FromAddress(forward), Present(app) + Present(screen), Strings.FeedbackEmailSubject(user, host)),
        body))
  }

  /**
   * The mail goes to the feedback address with a subject naming the user
   * and host, carries the application screenshot before the screen one,
   * and its body starts with the message and ends with one note per
   * attachment.
   */
  lemma FeedbackMailShape(userEnv: Option<string>, out: string, message: string,
                          forward: Option<string>, app: Option<string>, screen: Option<string>)
    ensures var job := FeedbackMail(userEnv, Some(out), message, forward, app, screen).value;
      var user, host := UserName(userEnv), Text.Strip(out);
      var paths := Present(app) + Present(screen);
      var argv := job.argv;
      var off := if FromAddress(forward) == [] then 1 else 3;
      && |argv| == off + 2 * |paths| + 3
      && argv[|argv| - 1] == Settings.FeedbackEmail
      && argv[|argv| - 2] == Strings.FeedbackEmailSubject(user, host)
      && (app.Some? ==> argv[off] == "-a" && argv[off + 1] == app.value)
      && (screen.Some? ==> argv[off + 2 * |paths| - 2] == "-a" && argv[off + 2 * |paths| - 1] == screen.value)
      && (app.None? && screen.None? ==> job.body == Strings.FeedbackEmailContent(user, host, message))
      && (app.Some? && screen.Some? ==>
            job.body == Strings.FeedbackEmailContent(user, host, message)
              + Strings.FeedbackAppScreenshotMsg + Strings.FeedbackScreenScreenshotMsg)
  {
    var user, host := UserName(userEnv), Text.Strip(out);
    var paths := Present(app) + Present(screen);
    MailArgvShape(FromAddress(forward), paths, Strings.FeedbackEmailSubject(user, host));
    if screen.Some? {
      assert paths[|paths| - 1] == screen.value;
    }
  }

  /** Without `~/.forward`, or with a blank one, the command names no sender. */
  lemma NoForwardNoSender(forward: Option<string>, paths: seq<string>, subject: string)
    requires forward.None? || Text.Strip(forward.value) == []
    ensures MailArgv(FromAddress(forward), paths, subject)[1] != "-r"
  {
    MailArgvShape(FromAddress(forward), paths, subject);
    if |paths| > 0 {
      assert MailArgv(FromAddress(forward), paths, subject)[1] == "-a";
    } else {
      assert MailArgv(FromAddress(forward), paths, subject)[1] == "-s";
    }
  }

  /**
   * send_feedback_email with its effects in order: the subject and body
   * are built, then the command line; None where the method takes its
   * error path before `mail` is started.
   */
  method BuildFeedbackMail(userEnv: Option<string>, hostOutput: Option<string>, message: string,
                           forward: Option<string>, attachApp: bool, appCapture: Option<string>,
                           attachScreen: bool, screenCapture: Option<string>) returns (job: Option<MailJob>)
    ensures job == FeedbackMail(userEnv, hostOutput, message, forward,
                                Shot(attachApp, appCapture), Shot(attachScreen, screenCapture))
  {
    if hostOutput.None? {
      return None;
    }
    var user := UserName(userEnv);
    var host := Text.Strip(hostOutput.value);
    var subject := Strings.FeedbackEmailSubject(user, host);
    var content := Strings.FeedbackEmailContent(user, host, message);
    var from := FromAddress(forward);
    var app, screen := Shot(attachApp, appCapture), Shot(attachScreen, screenCapture);
    var paths: seq<string> := [];
    if app.Some? {
      paths := paths + [app.value];
      content := content + Strings.FeedbackAppScreenshotMsg;
    }
    assert paths == Present(app);
    assert content == Strings.FeedbackEmailContent(user, host, message) + Note(app, Strings.FeedbackAppScreenshotMsg);
    if screen.Some? {
      paths := paths + [screen.value];
      content := content + Strings.FeedbackScreenScreenshotMsg;
    }
    assert paths == Present(app) + Present(screen);
    var cmd := AssembleMailCommand(from, paths, subject);
    job := Some(MailJob(cmd, content));
    assert content == Strings.FeedbackEmailContent(user, host, message)
      + Note(app, Strings.FeedbackAppScreenshotMsg) + Note(screen, Strings.FeedbackScreenScreenshotMsg);
    assert FeedbackMail(userEnv, hostOutput, message, forward, app, screen)
      == Some(MailJob(MailArgv(from, Present(app) + Present(screen), subject),
                      Strings.FeedbackEmailContent(user, host, message)
                        + Note(app, Strings.FeedbackAppScreenshotMsg) + Note(screen, Strings.FeedbackScreenScreenshotMsg)));
  }

  // ---------------------------------------------------------------------
  // The status message after the dialog

  const SuccessWrite := Alerts.StatusWrite(Strings.FeedbackSuccess, "green")
  const EmptyWrite := Alerts.StatusWrite(Strings.FeedbackEmpty, "orange")
  const ErrorWrite := Alerts.StatusWrite(Strings.FeedbackError, "red")

  /**
   * The status writes of show_feedback_dialog as the code makes them: a
   * failed send writes the error, and the success message is then written
   * over it unconditionally. `text` is the stripped dialog text.
   */
  function FeedbackWritesAsWritten(accepted: bool, text: string, sendFailed: bool): (ws: seq<Alerts.StatusWrite>)
    ensures accepted <==> ws != []
    ensures accepted ==> ws[|ws| - 1] == (if text != [] then SuccessWrite else EmptyWrite)
    ensures ErrorWrite in ws <==> accepted && text != [] && sendFailed
  {
    if !accepted then []
    else if text != [] then (if sendFailed then [ErrorWrite] else []) + [SuccessWrite]
    else [EmptyWrite]
  }

  /** The writes that show each outcome: the error when the send failed, success otherwise. */
  function FeedbackWrites(accepted: bool, text: string, sendFailed: bool): (ws: seq<Alerts.StatusWrite>)
    ensures |ws| == (if accepted then 1 else 0)
    ensures accepted && text == [] ==> ws[0] == EmptyWrite
    ensures accepted && text != [] ==> (ws[0] == ErrorWrite <==> sendFailed) && (ws[0] == SuccessWrite <==> !sendFailed)
  {
    if !accepted then []
    else if text != [] then [if sendFailed then ErrorWrite else SuccessWrite]
    else [EmptyWrite]
  }

  /**
   * As written, a failed send is indistinguishable from a successful one:
   * the user is thanked in green either way.
   */
  lemma ErrorOverwritten(v: Alerts.StatusView, text: string, elide: string -> string)
    requires text != []
    ensures Alerts.ApplyWrites(v, FeedbackWritesAsWritten(true, text, true), elide)
         == Alerts.ApplyWrites(v, FeedbackWritesAsWritten(true, text, false), elide)
    ensures Alerts.ApplyWrites(v, FeedbackWritesAsWritten(true, text, true), elide).trayColor == "green"
  {
    Alerts.LastWriteWins(v, [ErrorWrite], SuccessWrite, elide);
    Alerts.LastWriteWins(v, [], SuccessWrite, elide);
  }

  /** The same, on the feedback text "bug" with `hostname` failing. */
  lemma ErrorOverwrittenExample(elide: string -> string)
    ensures FeedbackMail(None, None, "bug", None, None, None).None?
    ensures Alerts.ApplyWrites(Alerts.InitialView, FeedbackWritesAsWritten(true, "bug", true), elide).trayColor == "green"
    ensures Alerts.ApplyWrites(Alerts.InitialView, FeedbackWritesAsWritten(true, "bug", true), elide).text
         == elide(Strings.FeedbackSuccess)
  {
    ErrorOverwritten(Alerts.InitialView, "bug", elide);
  }

  /** The corrected writes show exactly the outcome: error in red, success in green, empty in orange. */
  lemma FeedbackOutcomeShown(v: Alerts.StatusView, accepted: bool, text: string, sendFailed: bool, elide: string -> string)
    ensures var r := Alerts.ApplyWrites(v, FeedbackWrites(accepted, text, sendFailed), elide);
      && (!accepted ==> r == v)
      && (accepted && text != [] && sendFailed ==> r.visible && r.trayColor == "red" && r.text == elide(Strings.FeedbackError))
      && (accepted && text != [] && !sendFailed ==> r.visible && r.trayColor == "green" && r.text == elide(Strings.FeedbackSuccess))
      && (accepted && text == [] ==> r.visible && r.trayColor == "orange" && r.text == elide(Strings.FeedbackEmpty))
  {
    if accepted {
      var w := FeedbackWrites(accepted, text, sendFailed)[0];
      Alerts.LastWriteWins(v, [], w, elide);
    }
  }

  /** Both versions agree whenever the send did not fail. */
  lemma CorrectionOnlyOnFailure(accepted: bool, text: string)
    ensures FeedbackWrites(accepted, text, false) == FeedbackWritesAsWritten(accepted, text, false)
  {
  }
}
