/**
 * The web dashboard: the bot's status, its child process and the bounded buffer of its output
 * (the globals of app.py, here fields of one object), the start and stop handlers, the reader
 * thread's loop, the status view, and the normalisation of the site list the form submits.
 */
module App {
  import opened Wrappers
  import opened Text
  import opened Timestamps
  import opened Config
  import opened Sites

  // ---------------------------------------------------------------------------
  // The output buffer
  // ---------------------------------------------------------------------------

  /** The line the reader thread keeps for a line the bot printed: "[timestamp] " and the stripped text. */
  function LogLine(text: string, at: Timestamp): string {
    "[" + Format(at) + "] " + Strip(text)
  }

  /** The line kept when the reader thread fails. */
  function ErrorLine(message: string): string {
    "Error: " + message
  }

  /** Append a line, then drop the oldest when the buffer holds more than 100. */
  function Feed(buf: seq<string>, line: string): seq<string> {
    var b := buf + [line];
    if |b| > MaxOutputLines then b[1..] else b
  }

  function FeedAll(buf: seq<string>, lines: seq<string>): seq<string>
    decreases |lines|
  {
    if lines == [] then buf else FeedAll(Feed(buf, lines[0]), lines[1..])
  }

  function Min(a: nat, b: nat): nat {
    if a <= b then a else b
  }

  /** A buffer of at most 100 lines fed any lines holds the last (at most 100) of all the lines it was given. */
  lemma {:induction false} FeedWindow(buf: seq<string>, lines: seq<string>)
    requires |buf| <= MaxOutputLines
    ensures var r := FeedAll(buf, lines);
      && |r| == Min(MaxOutputLines, |buf| + |lines|)
      && r == (buf + lines)[|buf + lines| - |r|..]
    decreases |lines|
  {
    if lines != [] {
      var b := Feed(buf, lines[0]);
      FeedWindow(b, lines[1..]);
      var all, r := buf + lines, FeedAll(buf, lines);
      if |buf| + 1 > MaxOutputLines {
        assert b + lines[1..] == all[1..];
      } else {
        assert b + lines[1..] == all;
      }
    }
  }

  // ---------------------------------------------------------------------------
  // The reader thread
  // ---------------------------------------------------------------------------

  /**
   * One pass of the reader loop: readline returned `text` (empty at end of file), `exited` is
   * whether poll() found the process finished, `at` is the clock when the line was read. Or the
   * pass raised, with its message.
   */
  datatype Reading =
    | Line(text: string, exited: bool, at: Timestamp)
    | ReadRaised(message: string)

  /** The pass that leaves the loop: an exception, or an empty read once the process has exited. */
  predicate Stops(r: Reading) {
    r.ReadRaised? || (r.text == [] && r.exited)
  }

  /** How the reader loop ended: the process exited, the loop raised, or it is still reading. */
  datatype Ending = Exited | Failed | Pending

  /** What the reader loop leaves in the buffer, and how it ended. */
  datatype Drained = Drained(output: seq<string>, ending: Ending)

  /** The reader loop on the buffer `buf` and the passes `passes` of its loop. */
  function Drain(buf: seq<string>, passes: seq<Reading>): Drained
    decreases |passes|
  {
    if passes == [] then Drained(buf, Pending)
    else
      match passes[0]
      case ReadRaised(message) => Drained(buf + [ErrorLine(message)], Failed)
      case Line(text, exited, at) =>
        if text == [] && exited then Drained(buf, Exited)
        else Drain(if text != [] then Feed(buf, LogLine(text, at)) else buf, passes[1..])
  }

  /** The number of passes before the one that leaves the loop. */
  function Consumed(passes: seq<Reading>): (n: nat)
    ensures n <= |passes|
    ensures n < |passes| ==> Stops(passes[n])
    decreases |passes|
  {
    if passes == [] || Stops(passes[0]) then 0 else 1 + Consumed(passes[1..])
  }

  /** The line kept for one pass: its log line when it read a non-empty text. */
  function Kept(r: Reading): seq<string> {
    if r.Line? && r.text != [] then [LogLine(r.text, r.at)] else []
  }

  /** The lines kept for the passes `passes`, in order. */
  function Logged(passes: seq<Reading>): seq<string>
    decreases |passes|
  {
    if passes == [] then [] else Kept(passes[0]) + Logged(passes[1..])
  }

  lemma {:induction false} FeedAllAppend(buf: seq<string>, a: seq<string>, b: seq<string>)
    ensures FeedAll(buf, a + b) == FeedAll(FeedAll(buf, a), b)
    decreases |a|
  {
    if a == [] {
      assert a + b == b;
    } else {
      assert (a + b)[0] == a[0] && (a + b)[1..] == a[1..] + b;
      FeedAllAppend(Feed(buf, a[0]), a[1..], b);
    }
  }

  /** A pass that does not leave the loop feeds its kept line and hands the rest of the passes on. */
  lemma DrainStep(buf: seq<string>, passes: seq<Reading>)
    requires passes != [] && !Stops(passes[0])
    ensures Drain(buf, passes) == Drain(FeedAll(buf, Kept(passes[0])), passes[1..])
    ensures Consumed(passes) == 1 + Consumed(passes[1..])
  {
    var r := passes[0];
    if r.text != [] {
      assert [LogLine(r.text, r.at)][1..] == [];
    }
  }

  lemma LoggedPrefix(passes: seq<Reading>, n: nat)
    requires 0 < n <= |passes|
    ensures Logged(passes[..n]) == Kept(passes[0]) + Logged(passes[1..][..n - 1])
  {
    assert passes[..n][1..] == passes[1..][..n - 1] && passes[..n][0] == passes[0];
  }

  /**
   * The reader loop keeps the lines of the passes before the one that leaves it, through the
   * bounded buffer; a failing pass then adds its error line without dropping any.
   */
  lemma {:induction false} DrainOutput(buf: seq<string>, passes: seq<Reading>)
    ensures var n, d := Consumed(passes), Drain(buf, passes);
      && d.ending == (if n == |passes| then Pending else if passes[n].ReadRaised? then Failed else Exited)
      && d.output == FeedAll(buf, Logged(passes[..n]))
                     + (if n < |passes| && passes[n].ReadRaised? then [ErrorLine(passes[n].message)] else [])
    decreases |passes|
  {
    if passes != [] && !Stops(passes[0]) {
      var kept := Kept(passes[0]);
      DrainStep(buf, passes);
      DrainOutput(FeedAll(buf, kept), passes[1..]);
      var n := Consumed(passes);
      LoggedPrefix(passes, n);
      FeedAllAppend(buf, kept, Logged(passes[1..][..n - 1]));
      if n < |passes| {
        assert passes[n] == passes[1..][n - 1];
      }
    }
  }

  /**
   * A buffer of at most 100 lines stays within 100 lines unless the loop raises; the error line
   * is appended without trimming, so a full buffer then holds 101.
   */
  lemma DrainBound(buf: seq<string>, passes: seq<Reading>)
    requires |buf| <= MaxOutputLines
    ensures var d := Drain(buf, passes);
      && (d.ending != Failed ==> |d.output| <= MaxOutputLines)
      && (d.ending == Failed ==> |d.output| <= MaxOutputLines + 1)
      && (d.ending == Failed && |buf| == MaxOutputLines ==> |d.output| == MaxOutputLines + 1)
  {
    DrainOutput(buf, passes);
    FeedWindow(buf, Logged(passes[..Consumed(passes)]));
  }

  // ---------------------------------------------------------------------------
  // The dashboard
  // ---------------------------------------------------------------------------

  /** bot_status: "stopped", "running" or "error". */
  datatype BotStatus = Stopped | Running | Errored

  datatype StartReply = Started | AlreadyRunning
  datatype StopReply = StopSent | NotRunning

  class Dashboard {
    /** bot_output. */
    var output: seq<string>
    var status: BotStatus
    /** bot_process: the id of the child process, None when there is none. */
    var process: Option<nat>
    /** The processes terminate() was called on, in order. */
    var terminated: seq<nat>
    /** The reader threads started so far. */
    var launches: nat

    constructor()
      ensures output == [] && status == Stopped && process == None
      ensures terminated == [] && launches == 0
    {
      output, status, process, terminated, launches := [], Stopped, None, [], 0;
    }

    /** start_bot: unless the bot runs, clear the buffer and start a reader thread. */
    method StartBot() returns (reply: StartReply)
      modifies this
      ensures old(status) != Running ==> reply == Started && output == [] && launches == old(launches) + 1
      ensures old(status) == Running ==> reply == AlreadyRunning && output == old(output) && launches == old(launches)
      ensures status == old(status) && process == old(process) && terminated == old(terminated)
    {
      if status != Running {
        output := [];
        launches := launches + 1;
        reply := Started;
      } else {
        reply := AlreadyRunning;
      }
    }

    /** stop_bot: with a process and a running status, terminate it and mark the bot stopped; the process is kept. */
    method StopBot() returns (reply: StopReply)
      modifies this
      ensures old(process).Some? && old(status) == Running ==>
        reply == StopSent && status == Stopped && terminated == old(terminated) + [old(process).value]
      ensures !(old(process).Some? && old(status) == Running) ==>
        reply == NotRunning && status == old(status) && terminated == old(terminated)
      ensures process == old(process) && output == old(output) && launches == old(launches)
    {
      if process.Some? && status == Running {
        terminated := terminated + [process.value];
        status := Stopped;
        reply := StopSent;
      } else {
        reply := NotRunning;
      }
    }

    /** get_status's output: the last 50 lines of the buffer. */
    function StatusView(): (view: seq<string>)
      reads this
      ensures |view| == Min(|output|, StatusLines)
      ensures view == output[|output| - |view|..]
    {
      if |output| > StatusLines then output[|output| - StatusLines..] else output
    }

    /**
     * run_bot, the body of the reader thread. `spawn` is the exception Popen raised, if any;
     * `pid` is the process it started; `passes` are the passes of its loop.
     */
    method RunBot(pid: nat, spawn: Option<string>, passes: seq<Reading>)
      modifies this
      ensures spawn.Some? ==>
        status == Errored && output == old(output) + [ErrorLine(spawn.value)] && process == old(process)
      ensures spawn.None? ==>
        var d := Drain(old(output), passes);
        && output == d.output
        && (d.ending == Exited ==> status == Stopped && process == None)
        && (d.ending == Failed ==> status == Errored && process == Some(pid))
        && (d.ending == Pending ==> status == Running && process == Some(pid))
      ensures terminated == old(terminated) && launches == old(launches)
    {
      if spawn.Some? {
        status := Errored;
        output := output + [ErrorLine(spawn.value)];
        return;
      }
      process := Some(pid);
      status := Running;
      var i := 0;
      while i < |passes|
        invariant i <= |passes| && status == Running && process == Some(pid)
        invariant terminated == old(terminated) && launches == old(launches)
        invariant Drain(old(output), passes) == Drain(output, passes[i..])
      {
        assert passes[i..][1..] == passes[i + 1..];
        match passes[i]
        case ReadRaised(message) =>
          status := Errored;
          output := output + [ErrorLine(message)];
          return;
        case Line(text, exited, at) =>
          if text == [] && exited {
            status := Stopped;
            process := None;
            return;
          }
          if text != [] {
            output := output + [LogLine(text, at)];
            if |output| > MaxOutputLines {
              output := output[1..];
            }
          }
        i := i + 1;
      }
    }
  }

  /** Starting the bot and letting the reader thread run leaves at most 100 lines, or 101 after a failure. */
  lemma StartThenRunBound(passes: seq<Reading>)
    ensures var d := Drain([], passes);
      && (d.ending != Failed ==> |d.output| <= MaxOutputLines)
      && |d.output| <= MaxOutputLines + 1
  {
    DrainBound([], passes);
  }

  // ---------------------------------------------------------------------------
  // The site form
  // ---------------------------------------------------------------------------

  /** manage_sites on a POST: the stripped, non-blank lines of the stripped form field ('' when absent). */
  function NormalizeSites(form: Option<string>): (sites: seq<string>)
    ensures forall k :: 0 <= k < |sites| ==> sites[k] != [] && IsStripped(sites[k]) && '\n' !in sites[k]
  {
    var text := if form.Some? then form.value else "";
    var pieces := Split(Strip(text), "\n");
    var sites := KeepStripped(pieces);
    SplitPiecesFree(Strip(text), '\n');
    forall k | 0 <= k < |sites| ensures '\n' !in sites[k] {
      KeepStrippedMembers(pieces, sites[k]);
      var x :| x in pieces && !AllSpace(x) && Strip(x) == sites[k];
      StripShape(x);
    }
    sites
  }

  /** What manage_sites writes to sites.txt: the sites joined by newlines. */
  function SitesText(form: Option<string>): string {
    Join(NormalizeSites(form), "\n")
  }

  /** Non-blank stripped one-line sites, joined by newlines, are read back by load_sites as they were. */
  lemma {:induction false} LoadJoined(sites: seq<string>)
    requires forall k :: 0 <= k < |sites| ==> sites[k] != [] && IsStripped(sites[k]) && '\n' !in sites[k]
    ensures LoadSites(Join(sites, "\n")) == sites
    decreases |sites|
  {
    if |sites| == 1 {
      var x := sites[0];
      LinesSingle(x);
      StrippedIsFixed(x);
      assert [x][..0] == [];
    } else if |sites| >= 2 {
      var x, rest := sites[0], sites[1..];
      LoadJoined(rest);
      LinesCons(x, Join(rest, "\n"));
      KeepStrippedAppend([x + "\n"], Lines(Join(rest, "\n")));
      StripAppendSpace(x, '\n');
      StrippedIsFixed(x);
      assert [x + "\n"][..0] == [];
      assert sites == [x] + rest;
    }
  }

  /**
   * The sites saved through the dashboard are exactly the sites the bot loads, with '\n' as the
   * only line end (text-mode reading would also end a line at a lone '\r').
   */
  lemma SitesRoundTrip(form: Option<string>)
    ensures LoadSites(SitesText(form)) == NormalizeSites(form)
  {
    LoadJoined(NormalizeSites(form));
  }
}
