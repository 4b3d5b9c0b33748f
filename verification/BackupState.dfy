/** The run times of one routine, as in pkg/model/backup_state.go. */
module BackupState {
  import opened History

  /** The later of the two run times. */
  function LatestRun(lastFullRun: Time, lastIncrRun: Time): (t: Time)
    ensures lastFullRun <= t && lastIncrRun <= t && t in {lastFullRun, lastIncrRun}
  {
    if lastIncrRun > lastFullRun then lastIncrRun else lastFullRun
  }

  class BackupState {
    var lastFullRun: Time
    var lastIncrRun: Time
    var performed: nat

    constructor (lastFullRun: Time, lastIncrRun: Time)
      ensures this.lastFullRun == lastFullRun && this.lastIncrRun == lastIncrRun && performed == 0
    {
      this.lastFullRun, this.lastIncrRun, performed := lastFullRun, lastIncrRun, 0;
    }

    method LastFullRunIsEmpty() returns (r: bool)
      ensures r <==> lastFullRun == 0
    {
      r := lastFullRun == 0;
    }

    method SetLastFullRun(t: Time)
      modifies this
      ensures lastFullRun == t && performed == old(performed) + 1
      ensures lastIncrRun == old(lastIncrRun)
    {
      lastFullRun := t;
      performed := performed + 1;
    }

    method SetLastIncrRun(t: Time)
      modifies this
      ensures lastIncrRun == t
      ensures lastFullRun == old(lastFullRun) && performed == old(performed)
    {
      lastIncrRun := t;
    }

    method LastRun() returns (t: Time)
      ensures t == LatestRun(lastFullRun, lastIncrRun)
    {
      if lastIncrRun > lastFullRun {
        return lastIncrRun;
      }
      return lastFullRun;
    }
  }
}
