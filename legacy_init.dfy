/** `src/commands/init.ts`: the older `init` command. Its helpers are the
    same as those of `src/cli/commands/init.ts` (modelled in `CliInit`);
    only `runInit` differs: it ends after the optional configuration file,
    without the `.gitignore` step. */
module LegacyInit {
  import opened CliInit

  /** `runInit` of the older command. */
  method RunInit(ws: Workspace, hookMethod: string, genConfig: bool, force: bool, template: string)
    returns (outcome: Outcome)
    modifies ws
    ensures (outcome, ws.Snapshot())
         == RunInitAfter(old(ws.Snapshot()), ws.cwd, ws.isGitRepo, hookMethod, genConfig, force, template, false, false)
  {
    if !ws.isGitRepo {
      return Exited(1);
    }
    if hookMethod == "husky" {
      ws.InitHusky();
    } else if hookMethod == "simple" {
      var ok := ws.InitSimpleGitHooks();
      if !ok {
        return Crashed;
      }
    } else {
      ws.InitGitHooks();
    }
    if genConfig {
      ws.GenerateConfig(force, template);
    }
    outcome := Completed;
  }

  /** The two commands end the same way, and the newer one's changes are
      the older one's followed by the `.gitignore` step. */
  lemma NewerAddsGitignoreStep(d: Disk, cwd: string, isGitRepo: bool, hookMethod: string, genConfig: bool,
                               force: bool, template: string, confirmed: bool)
    ensures var older := RunInitAfter(d, cwd, isGitRepo, hookMethod, genConfig, force, template, confirmed, false);
            var newer := RunInitAfter(d, cwd, isGitRepo, hookMethod, genConfig, force, template, confirmed, true);
            && newer.0 == older.0
            && newer.1 == (if older.0 == Completed then GitignoreAfter(older.1, cwd, confirmed) else older.1)
  {
  }
}
