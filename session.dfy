/**
 * The decisions `sshHandler` takes for one session (main.go lines 73-124),
 * as the ordered trace of the observable actions it performs.
 *
 * Two of the session's calls do not end the handler: after writing its
 * message and calling `s.Exit(1)` on an unrecognised user (line 78) or a
 * missing entrypoint (line 84), the handler carries on building the command
 * and, with a PTY, calling `pty.Start`. For an unrecognised user that start
 * spawns the entrypoint; for a missing entrypoint it normally fails on the
 * same missing path and the handler panics. Only the two `return`s of the
 * identifier parse (lines 91 and 97) stop it early.
 */
module Session {
  import opened Wrappers
  import Config
  import Decimal

  /** What `os.Stat` on the entrypoint reported. */
  datatype StatOutcome = Found | NotExist | OtherStatError

  /**
   * `validSshEntrypoint`: only a "does not exist" error makes the entrypoint
   * invalid; a file that was found and any other stat error (a permission
   * error, say) leave it valid.
   */
  predicate ValidSshEntrypoint(stat: StatOutcome): (valid: bool)
    ensures valid <==> stat == Found || stat == OtherStatError
  {
    !stat.NotExist?
  }

  /** `syscall.Credential{Uid, Gid}` (both `uint32`). */
  datatype Credential = Credential(uid: nat, gid: nat)

  /**
   * The parts of `exec.Cmd` the handler sets: the program path, `Env`
   * (empty, i.e. nil, until the PTY branch appends to it) and the
   * credential of `SysProcAttr` (None while `SysProcAttr` is nil).
   */
  datatype Command = Command(path: string, env: seq<string>, credential: Option<Credential>)

  /** The session's PTY request: present when `s.Pty()` reports `isPty`. */
  datatype PtyRequest = PtyRequest(term: string)

  datatype Action =
    | Write(text: string)            // io.WriteString(s, text)
    | Exit(code: int)                // s.Exit(code)
    | Return                         // an explicit early `return`
    | SetCredential(credential: Credential)
    | AppendEnv(entry: string)       // cmd.Env = append(cmd.Env, entry)
    | Spawn(cmd: Command)            // pty.Start(cmd) succeeded; streaming follows
    | Panic                          // pty.Start(cmd) failed: panic(err)

  /** The actions a handler run can end with. */
  predicate Ends(a: Action)
  {
    a == Return || a == Exit(1) || a.Spawn? || a == Panic
  }

  /** Lines 75-79: the identity check, when enforcement is on. */
  function IdentityCheck(cfg: Config.Settings, user: string): seq<Action>
  {
    if cfg.checkGithubUser && cfg.githubUser != user
    then [Write("Unrecognized user " + user + "\n"), Exit(1)]
    else []
  }

  /** Lines 81-85: the entrypoint re-check. */
  function EntrypointCheck(stat: StatOutcome): seq<Action>
  {
    if !ValidSshEntrypoint(stat) then [Write("Invalid SSH Entrypoint\n"), Exit(1)] else []
  }

  /** The outcome of building the command: abandoned by a `return`, or ready. */
  datatype Setup = Abandoned | Ready(actions: seq<Action>, cmd: Command)

  /** Lines 87-101: the command, with a credential when both identifiers are set. */
  function BuildCommand(cfg: Config.Settings): Setup
  {
    var cmd := Command(cfg.sshEntrypoint, [], None);
    if cfg.sshGroupID != "" && cfg.sshUserID != "" then
      var gid := Decimal.ParseUint(cfg.sshGroupID, 32);
      if gid.None? then Abandoned
      else
        var uid := Decimal.ParseUint(cfg.sshUserID, 32);
        if uid.None? then Abandoned
        else
          var credential := Credential(Decimal.Uint32(uid.value), Decimal.Uint32(gid.value));
          Ready([SetCredential(credential)], cmd.(credential := Some(credential)))
    else Ready([], cmd)
  }

  /** Lines 103-123: start the command on a PTY, or refuse a session without one. */
  function PtyBranch(cmd: Command, pty: Option<PtyRequest>, startFails: bool): seq<Action>
  {
    match pty
    case Some(req) =>
      var entry := "TERM=" + req.term;
      var cmd' := cmd.(env := cmd.env + [entry]);
      [AppendEnv(entry)] + (if startFails then [Panic] else [Spawn(cmd')])
    case None =>
      [Write("No PTY requested.\n"), Exit(1)]
  }

  /** Lines 87-123: everything after the two checks. */
  function AfterChecks(cfg: Config.Settings, pty: Option<PtyRequest>, startFails: bool): seq<Action>
  {
    match BuildCommand(cfg)
    case Abandoned => [Return]
    case Ready(actions, cmd) => actions + PtyBranch(cmd, pty, startFails)
  }

  /**
   * `sshHandler` as written: the two checks, then the command set-up and
   * the PTY branch, with no `return` after either `Exit(1)`. `startFails` is
   * whether `pty.Start` fails.
   */
  function HandlerTrace(cfg: Config.Settings, user: string, stat: StatOutcome,
                        pty: Option<PtyRequest>, startFails: bool): (t: seq<Action>)
    ensures t != [] && Ends(t[|t| - 1])
  {
    IdentityCheck(cfg, user) + EntrypointCheck(stat) + AfterChecks(cfg, pty, startFails)
  }

  /** The trace starts a process. */
  predicate Spawns(trace: seq<Action>)
  {
    exists a :: a in trace && a.Spawn?
  }

  /** Both privilege-drop identifiers are configured. */
  predicate BothIdsSet(cfg: Config.Settings)
  {
    cfg.sshGroupID != "" && cfg.sshUserID != ""
  }

  /** The identifiers do not abandon the session: unset, or both valid 32-bit decimals. */
  predicate IdsUsable(cfg: Config.Settings)
  {
    !BothIdsSet(cfg) ||
    (Decimal.ParseUint(cfg.sshGroupID, 32).Some? && Decimal.ParseUint(cfg.sshUserID, 32).Some?)
  }

  /** The credential the configuration calls for: the parsed identifiers themselves. */
  function ConfiguredCredential(cfg: Config.Settings): Option<Credential>
  {
    if BothIdsSet(cfg) && IdsUsable(cfg)
    then Some(Credential(Decimal.ParseUint(cfg.sshUserID, 32).value,
                         Decimal.ParseUint(cfg.sshGroupID, 32).value))
    else None
  }

  /**
   * The command set-up is abandoned exactly when both identifiers are set and
   * one fails to parse; otherwise the command carries the configured
   * credential, with `uint32` losing nothing.
   */
  lemma BuildCommandMeaning(cfg: Config.Settings)
    ensures BuildCommand(cfg).Abandoned? <==> !IdsUsable(cfg)
    ensures BuildCommand(cfg).Ready? ==>
      var credential := ConfiguredCredential(cfg);
      && BuildCommand(cfg).cmd == Command(cfg.sshEntrypoint, [], credential)
      && BuildCommand(cfg).actions == (if credential.Some? then [SetCredential(credential.value)] else [])
  {
    if BothIdsSet(cfg) && IdsUsable(cfg) {
      Decimal.Uint32OfParsed(cfg.sshGroupID);
      Decimal.Uint32OfParsed(cfg.sshUserID);
    }
  }

  /** The credential step, if any. */
  function CredentialStep(cfg: Config.Settings): seq<Action>
  {
    var credential := ConfiguredCredential(cfg);
    if credential.Some? then [SetCredential(credential.value)] else []
  }

  /** What the handler does after the checks and before its final action. */
  function Steps(cfg: Config.Settings, pty: Option<PtyRequest>): seq<Action>
  {
    if !IdsUsable(cfg) then []
    else match pty
      case None => CredentialStep(cfg) + [Write("No PTY requested.\n")]
      case Some(req) => CredentialStep(cfg) + [AppendEnv("TERM=" + req.term)]
  }

  /** The handler's final action, by cases on the inputs. */
  function Outcome(cfg: Config.Settings, pty: Option<PtyRequest>, startFails: bool): Action
  {
    if !IdsUsable(cfg) then Return
    else match pty
      case None => Exit(1)
      case Some(req) =>
        if startFails then Panic
        else Spawn(Command(cfg.sshEntrypoint, ["TERM=" + req.term], ConfiguredCredential(cfg)))
  }

  /**
   * After the checks, stated by cases on the inputs rather than step by
   * step: the credential (if any), the PTY preparation or refusal message,
   * then the final action.
   */
  lemma AfterChecksCases(cfg: Config.Settings, pty: Option<PtyRequest>, startFails: bool)
    ensures AfterChecks(cfg, pty, startFails) == Steps(cfg, pty) + [Outcome(cfg, pty, startFails)]
  {
    BuildCommandMeaning(cfg);
    if IdsUsable(cfg) && pty.Some? {
      assert [] + ["TERM=" + pty.value.term] == ["TERM=" + pty.value.term];
    }
  }

  /** Nothing before the final action spawns, returns or panics. */
  lemma OnlyOutcomeEnds(cfg: Config.Settings, user: string, stat: StatOutcome,
                        pty: Option<PtyRequest>, startFails: bool)
    ensures var t := HandlerTrace(cfg, user, stat, pty, startFails);
      var body := IdentityCheck(cfg, user) + EntrypointCheck(stat) + Steps(cfg, pty);
      && t == body + [Outcome(cfg, pty, startFails)]
      && (forall a :: a in body ==> a.Write? || a == Exit(1) || a.SetCredential? || a.AppendEnv?)
      && (forall i :: 0 <= i < |body| ==> t[i] == body[i])
  {
    AfterChecksCases(cfg, pty, startFails);
  }

  /**
   * A process is spawned exactly when a PTY was requested, the identifiers
   * do not abandon the session and `pty.Start` succeeds. The identity and
   * entrypoint checks play no part.
   */
  lemma SpawnConditions(cfg: Config.Settings, user: string, stat: StatOutcome,
                        pty: Option<PtyRequest>, startFails: bool)
    ensures Spawns(HandlerTrace(cfg, user, stat, pty, startFails)) <==>
      pty.Some? && !startFails && IdsUsable(cfg)
  {
    var t := HandlerTrace(cfg, user, stat, pty, startFails);
    OnlyOutcomeEnds(cfg, user, stat, pty, startFails);
    assert t[|t| - 1] in t;
  }

  /**
   * At most one process per session, and it is the last action: spawned
   * from the configured entrypoint, with an environment of exactly one entry,
   * `TERM=<requested terminal>`, and with the configured credential.
   */
  lemma SpawnedCommand(cfg: Config.Settings, user: string, stat: StatOutcome,
                       pty: Option<PtyRequest>, startFails: bool)
    ensures var t := HandlerTrace(cfg, user, stat, pty, startFails);
      && (forall i :: 0 <= i < |t| - 1 ==> !t[i].Spawn?)
      && (Spawns(t) ==>
            && pty.Some?
            && t[|t| - 1] == Spawn(Command(cfg.sshEntrypoint, ["TERM=" + pty.value.term], ConfiguredCredential(cfg))))
  {
    var t := HandlerTrace(cfg, user, stat, pty, startFails);
    OnlyOutcomeEnds(cfg, user, stat, pty, startFails);
    SpawnConditions(cfg, user, stat, pty, startFails);
    var body := IdentityCheck(cfg, user) + EntrypointCheck(stat) + Steps(cfg, pty);
    assert forall i :: 0 <= i < |t| - 1 ==> body[i] in body;
  }

  /**
   * The handler returns early exactly when both identifiers are set and one
   * fails to parse; it then does nothing after the two checks: no credential,
   * no PTY check, no process.
   */
  lemma EarlyReturn(cfg: Config.Settings, user: string, stat: StatOutcome,
                    pty: Option<PtyRequest>, startFails: bool)
    ensures var t := HandlerTrace(cfg, user, stat, pty, startFails);
      (Return in t <==> !IdsUsable(cfg)) &&
      (!IdsUsable(cfg) ==> t == IdentityCheck(cfg, user) + EntrypointCheck(stat) + [Return])
  {
    OnlyOutcomeEnds(cfg, user, stat, pty, startFails);
  }

  /**
   * Without a PTY no process is spawned: when the identifiers allow the
   * handler to get that far, it ends by writing "No PTY requested." and
   * calling `Exit(1)`.
   */
  lemma NoPtyRefused(cfg: Config.Settings, user: string, stat: StatOutcome, startFails: bool)
    ensures var t := HandlerTrace(cfg, user, stat, None, startFails);
      !Spawns(t) &&
      (IdsUsable(cfg) ==> |t| >= 2 && t[|t| - 2..] == [Write("No PTY requested.\n"), Exit(1)])
  {
    SpawnConditions(cfg, user, stat, None, startFails);
    AfterChecksCases(cfg, None, startFails);
  }

  /**
   * `Exit(1)` does not end the handler: whatever the identity and entrypoint
   * checks write, the rest of the trace is the one an accepted user with a
   * valid entrypoint gets.
   */
  lemma ExitFallsThrough(cfg: Config.Settings, user: string, stat: StatOutcome,
                         pty: Option<PtyRequest>, startFails: bool)
    ensures HandlerTrace(cfg, user, stat, pty, startFails) ==
      IdentityCheck(cfg, user) + EntrypointCheck(stat) +
      HandlerTrace(cfg, cfg.githubUser, Found, pty, startFails)
  {
  }

  /**
   * Enforcement on, account "bob", claimed user "alice", a PTY for "xterm":
   * the handler tells the client the user is unrecognised, calls `Exit(1)`,
   * and still spawns the entrypoint.
   */
  lemma RejectedUserStillSpawns()
    ensures var cfg := Config.Settings(true, "bob", "", "2222", "/bin/bash", "", "");
      HandlerTrace(cfg, "alice", Found, Some(PtyRequest("xterm")), false) ==
        [Write("Unrecognized user alice\n"), Exit(1),
         AppendEnv("TERM=xterm"), Spawn(Command("/bin/bash", ["TERM=xterm"], None))]
  {
    var cmd := Command("/bin/bash", [], None);
    assert "Unrecognized user " + "alice" + "\n" == "Unrecognized user alice\n";
    assert "TERM=" + "xterm" == "TERM=xterm";
    assert cmd.env + ["TERM=xterm"] == ["TERM=xterm"];
  }

  /**
   * The handler with a `return` after each `Exit(1)`, as the identity and
   * entrypoint checks evidently intend.
   */
  function HandlerTraceExitReturns(cfg: Config.Settings, user: string, stat: StatOutcome,
                                   pty: Option<PtyRequest>, startFails: bool): seq<Action>
  {
    if IdentityCheck(cfg, user) != [] then IdentityCheck(cfg, user)
    else if EntrypointCheck(stat) != [] then EntrypointCheck(stat)
    else HandlerTrace(cfg, user, stat, pty, startFails)
  }

  /** With both checks passed, the only `Exit` is the refusal of a PTY-less session. */
  lemma NoExitUnlessRefused(cfg: Config.Settings, user: string, stat: StatOutcome,
                            pty: Option<PtyRequest>, startFails: bool)
    requires IdentityCheck(cfg, user) == [] && EntrypointCheck(stat) == []
    ensures var t := HandlerTrace(cfg, user, stat, pty, startFails);
      Exit(1) in t ==> pty.None? && IdsUsable(cfg) && t[|t| - 1] == Exit(1)
  {
    AfterChecksCases(cfg, pty, startFails);
  }

  /**
   * In the corrected handler `Exit(1)` ends the session: a trace that exits
   * spawns nothing and ends with the exit. A rejected user or a missing
   * entrypoint never gets a process; an accepted session is handled as
   * before.
   */
  lemma ExitEndsSession(cfg: Config.Settings, user: string, stat: StatOutcome,
                        pty: Option<PtyRequest>, startFails: bool)
    ensures var t := HandlerTraceExitReturns(cfg, user, stat, pty, startFails);
      && (Exit(1) in t ==> !Spawns(t) && t[|t| - 1] == Exit(1))
      && ((cfg.checkGithubUser && cfg.githubUser != user) || !ValidSshEntrypoint(stat) ==> !Spawns(t))
      && ((!cfg.checkGithubUser || cfg.githubUser == user) && ValidSshEntrypoint(stat) ==>
            t == HandlerTrace(cfg, user, stat, pty, startFails))
  {
    var t := HandlerTraceExitReturns(cfg, user, stat, pty, startFails);
    if IdentityCheck(cfg, user) == [] && EntrypointCheck(stat) == [] && Exit(1) in t {
      NoExitUnlessRefused(cfg, user, stat, pty, startFails);
      SpawnConditions(cfg, user, stat, pty, startFails);
    }
  }

  /** A PTY for "xterm" with default settings: the child's environment is `TERM=xterm` alone. */
  lemma XtermSession(user: string)
    ensures var cfg := Config.LoadSettings(map[]);
      HandlerTrace(cfg, user, Found, Some(PtyRequest("xterm")), false) ==
        [AppendEnv("TERM=xterm"), Spawn(Command("/bin/bash", ["TERM=xterm"], None))]
  {
    var cmd := Command("/bin/bash", [], None);
    Config.EmptyEnvironmentDefaults();
    assert "TERM=" + "xterm" == "TERM=xterm";
    assert cmd.env + ["TERM=xterm"] == ["TERM=xterm"];
  }

  /**
   * Only an entrypoint that `os.Stat` reports as missing is refused; any other
   * stat error lets the session through. When refused, the message and the
   * exit come right after the identity check.
   */
  lemma MissingEntrypointOnly(cfg: Config.Settings, user: string, stat: StatOutcome,
                              pty: Option<PtyRequest>, startFails: bool)
    ensures var t := HandlerTrace(cfg, user, stat, pty, startFails);
      var n := |IdentityCheck(cfg, user)|;
      (stat.NotExist? ==> |t| >= n + 2 && t[n..n + 2] == [Write("Invalid SSH Entrypoint\n"), Exit(1)]) &&
      (!stat.NotExist? ==> Write("Invalid SSH Entrypoint\n") !in t)
  {
    var rest := AfterChecks(cfg, pty, startFails);
    AfterChecksCases(cfg, pty, startFails);
    if !stat.NotExist? {
      assert Write("Invalid SSH Entrypoint\n") !in IdentityCheck(cfg, user) by {
        if IdentityCheck(cfg, user) != [] {
          assert IdentityCheck(cfg, user)[0].text[0] == 'U';
        }
      }
      assert Write("Invalid SSH Entrypoint\n") !in rest by {
        if IdsUsable(cfg) && pty.None? {
          assert rest[|rest| - 2].text[0] == 'N';
        }
      }
    }
  }

  /**
   * A missing entrypoint with a PTY: the message and `Exit(1)` are followed
   * by `TERM=` and the start of the same missing path, which fails, so the
   * handler panics and nothing is spawned.
   */
  lemma MissingEntrypointReachesStart(user: string)
    ensures var cfg := Config.LoadSettings(map[]);
      HandlerTrace(cfg, user, NotExist, Some(PtyRequest("xterm")), true) ==
        [Write("Invalid SSH Entrypoint\n"), Exit(1), AppendEnv("TERM=xterm"), Panic]
  {
    Config.EmptyEnvironmentDefaults();
    assert "TERM=" + "xterm" == "TERM=xterm";
  }
}
