/** The coalescing refresh of the generated preview module, one step per stretch of code between two
    awaits (mockupPreviewPlugin.ts:79-111). */
module RefreshSteps {
  import opened Options

  /** The shared flags, the file on disk, the discoveries in progress, and of the outermost call in
      progress whether it has written; `returned` is what the last outermost call to end returned. */
  datatype Flags = Flags(
    inFlight: bool, queued: bool, currentSource: string,
    written: Option<string>, discoveries: nat, changed: bool, returned: Option<bool>)

  const IDLE: Flags := Flags(false, false, "", None, 0, false, None)

  function Begun(f: Flags): Flags { f.(inFlight := true, discoveries := f.discoveries + 1) }

  /** A call from outside. */
  function Called(f: Flags): Flags {
    if f.inFlight then f.(queued := true) else Begun(f).(changed := false)
  }

  /** The discovery in progress ends with the text of the module to be; the write may throw. */
  function Resumed(f: Flags, newSource: string, writeThrows: bool): Flags
    requires f.discoveries > 0
  {
    var rewrite := newSource != f.currentSource;
    var ended := f.(inFlight := false, discoveries := f.discoveries - 1, currentSource := newSource);
    if rewrite && writeThrows then ended
    else
      var kept := if rewrite then ended.(written := Some(newSource), changed := true) else ended;
      if f.queued then Begun(kept.(queued := false)) else kept.(returned := Some(kept.changed))
  }

  /** The discovery in progress throws. */
  function Thrown(f: Flags): Flags
    requires f.discoveries > 0
  {
    f.(inFlight := false, discoveries := f.discoveries - 1)
  }

  class Refresher {
    var refreshInFlight: bool
    var refreshQueued: bool
    var currentSource: string
    var written: Option<string>
    var discoveries: nat
    var changed: bool
    var returned: Option<bool>

    constructor ()
      ensures View() == IDLE
    {
      refreshInFlight, refreshQueued, currentSource := false, false, "";
      written, discoveries, changed, returned := None, 0, false, None;
    }

    ghost function View(): Flags
      reads this
    {
      Flags(refreshInFlight, refreshQueued, currentSource, written, discoveries, changed, returned)
    }

    /** From the entry of the function to its first await. */
    method Enter()
      modifies this
      ensures View() == if old(refreshInFlight) then old(View()).(queued := true) else Begun(old(View()))
    {
      if refreshInFlight {
        refreshQueued := true;
        return;
      }
      refreshInFlight := true;
      discoveries := discoveries + 1;
    }

    method Refresh()
      modifies this
      ensures View() == Called(old(View()))
    {
      if !refreshInFlight {
        changed := false;
      }
      Enter();
    }

    /** From the end of the discovery to the end of the call or to the await of the follow-up. */
    method Resume(newSource: string, writeThrows: bool) returns (threw: bool)
      requires discoveries > 0
      modifies this
      ensures View() == Resumed(old(View()), newSource, writeThrows)
      ensures threw <==> newSource != old(currentSource) && writeThrows
    {
      threw := false;
      discoveries := discoveries - 1;
      if newSource != currentSource {
        currentSource := newSource;
        if writeThrows {
          refreshInFlight := false;
          return true;
        }
        written := Some(currentSource);
        changed := true;
      }
      refreshInFlight := false;
      if refreshQueued {
        refreshQueued := false;
        Enter();
        return;
      }
      returned := Some(changed);
    }

    method ResumeThrown()
      requires discoveries > 0
      modifies this
      ensures View() == Thrown(old(View()))
    {
      discoveries := discoveries - 1;
      refreshInFlight := false;
    }
  }
}
