// The share credentials one setup run writes into the guest: the ledger, the operations that may
// stop at any point, and the cleanup of every ending (src/guestSetup/windows/shareCredential.ts,
// src/guestSetup/windows/setupFlow.ts).
module ShareCredentials {

  type HostIp = string

  datatype Role = DefaultSwitch | Internal

  datatype Target = Target(role: Role, hostIp: HostIp)

  datatype Secret = Secret(account: string, password: string)

  datatype Status = Written | Verified | Removed | RemovalFailed

  datatype Entry = Entry(role: Role, status: Status)

  // --- The guest -----------------------------------------------------------------------------------

  /** How a guest script went: how many of its effects took place, and whether its answer was good. */
  datatype ScriptRun = ScriptRun(effects: nat, answered: bool)

  /** The script got through its `n` effects and said so. */
  predicate Done(run: ScriptRun, n: nat) {
    run.effects >= n && run.answered
  }

  /** The guest's stored credentials, and the host addresses it has a selected-share connection to. */
  class Guest {
    var credentials: map<HostIp, Secret>
    var connections: set<HostIp>

    /** Disconnect, delete, write. */
    method RunReplace(ip: HostIp, secret: Secret, run: ScriptRun) returns (ok: bool)
      modifies this
      ensures ok == Done(run, 3)
      ensures ok ==> credentials == old(credentials)[ip := secret]
      ensures credentials - {ip} == old(credentials) - {ip}
      ensures ip in credentials <==> run.effects >= 3 || (run.effects <= 1 && ip in old(credentials))
      ensures connections == if run.effects == 0 then old(connections) else old(connections) - {ip}
    {
      if run.effects >= 1 { connections := connections - {ip}; }
      if run.effects >= 2 { credentials := credentials - {ip}; }
      if run.effects >= 3 { credentials := credentials[ip := secret]; }
      return Done(run, 3);
    }

    /** Anything that uses the share may connect to it. */
    method Use(ip: HostIp, run: ScriptRun) returns (ok: bool)
      modifies this`connections
      ensures connections == if run.effects == 0 then old(connections) else old(connections) + {ip}
      ensures ok == run.answered
    {
      if run.effects >= 1 { connections := connections + {ip}; }
      return run.answered;
    }

    method RunClose(ip: HostIp, run: ScriptRun) returns (ok: bool)
      modifies this`connections
      ensures ok == Done(run, 1) && (ok ==> ip !in connections)
      ensures old(connections) - {ip} <= connections <= old(connections)
    {
      if run.effects >= 1 { connections := connections - {ip}; }
      return Done(run, 1);
    }

    /** One item of the cleanup script: disconnect, then delete when asked to. */
    method CleanItem(ip: HostIp, delete: bool, run: ScriptRun) returns (ok: bool)
      modifies this
      ensures ok == Done(run, if delete then 2 else 1)
      ensures ok ==> ip !in connections && (delete ==> ip !in credentials)
      ensures old(connections) - {ip} <= connections <= old(connections)
      ensures credentials == old(credentials) || (delete && credentials == old(credentials) - {ip})
    {
      if run.effects >= 1 { connections := connections - {ip}; }
      if delete && run.effects >= 2 { credentials := credentials - {ip}; }
      return Done(run, if delete then 2 else 1);
    }
  }

  // --- The ledger ----------------------------------------------------------------------------------

  class Ledger {
    var byAddress: map<HostIp, Entry>
    var open: set<HostIp>

    method Mark(target: Target, status: Status)
      modifies this`byAddress
      ensures byAddress == old(byAddress)[target.hostIp := Entry(target.role, status)]
    {
      byAddress := byAddress[target.hostIp := Entry(target.role, status)];
    }

    method SetStatus(ip: HostIp, status: Status)
      modifies this`byAddress
      ensures byAddress == if ip in old(byAddress) then old(byAddress)[ip := Entry(old(byAddress)[ip].role, status)] else old(byAddress)
    {
      if ip in byAddress {
        byAddress := byAddress[ip := Entry(byAddress[ip].role, status)];
      }
    }

    method MarkConnectionOpen(ip: HostIp)
      modifies this`open
      ensures open == old(open) + {ip}
    {
      open := open + {ip};
    }

    method MarkConnectionClosed(ip: HostIp)
      modifies this`open
      ensures open == old(open) - {ip}
    {
      open := open - {ip};
    }
  }

  predicate Has(entries: map<HostIp, Entry>, ip: HostIp, status: Status) {
    ip in entries && entries[ip].status == status
  }

  function Unverified(entries: map<HostIp, Entry>): set<HostIp> {
    set ip | ip in entries && entries[ip].status == Written
  }

  /**
   * The ledger accounts for the guest: connections are tracked, untracked addresses are as they
   * were, a verified entry is in the guest, and a removed one is not.
   */
  ghost predicate Accounts(entries: map<HostIp, Entry>, open: set<HostIp>, credentials: map<HostIp, Secret>,
                           connections: set<HostIp>, initial: map<HostIp, Secret>) {
    && connections <= open
    && (forall ip :: ip !in entries ==> (ip in credentials <==> ip in initial))
    && (forall ip :: ip !in entries && ip in initial ==> credentials[ip] == initial[ip])
    && (forall ip :: Has(entries, ip, Verified) ==> ip in credentials)
    && (forall ip :: Has(entries, ip, Removed) ==> ip !in credentials)
  }

  // --- The operations ------------------------------------------------------------------------------

  /** How the cleanup went: `results` says how far each item got; its answer may come too late. */
  datatype CleanupRun = CleanupRun(results: map<HostIp, ScriptRun>, arrived: bool)

  /** The cleanup script got through the item. */
  predicate Cleaned(run: CleanupRun, ip: HostIp, delete: bool) {
    ip in run.results && Done(run.results[ip], if delete then 2 else 1)
  }

  class VmShareCredentials {
    const ledger: Ledger
    const guest: Guest
    ghost const initial: map<HostIp, Secret>

    constructor (ledger: Ledger, guest: Guest)
      requires ledger.byAddress == map[] && ledger.open == {} && guest.connections == {}
      ensures this.ledger == ledger && this.guest == guest && this.initial == guest.credentials
      ensures Valid()
    {
      this.ledger := ledger;
      this.guest := guest;
      this.initial := guest.credentials;
    }

    ghost predicate Valid()
      reads this, ledger, guest
    {
      Accounts(ledger.byAddress, ledger.open, guest.credentials, guest.connections, initial)
    }

    method Replace(target: Target, secret: Secret, run: ScriptRun) returns (ok: bool)
      requires Valid()
      modifies ledger, guest
      ensures Valid() && ledger.open == old(ledger.open) && ok == Done(run, 3)
      ensures ledger.byAddress == old(ledger.byAddress)[target.hostIp := Entry(target.role, Written)]
      ensures ok ==> target.hostIp in guest.credentials && guest.credentials[target.hostIp] == secret
      ensures forall ip :: ip != target.hostIp ==>
                && (ip in guest.credentials <==> ip in old(guest.credentials))
                && (ip in guest.credentials ==> guest.credentials[ip] == old(guest.credentials)[ip])
    {
      ledger.Mark(target, Written);
      label marked:
      ok := guest.RunReplace(target.hostIp, secret, run);
      forall ip | ip != target.hostIp
        ensures ip in guest.credentials <==> ip in old(guest.credentials)
        ensures ip in guest.credentials ==> guest.credentials[ip] == old(guest.credentials)[ip]
      {
        Restricted(guest.credentials, old(guest.credentials), target.hostIp, ip);
      }
    }

    method Verify(target: Target, run: ScriptRun) returns (ok: bool)
      requires Valid() && target.hostIp in guest.credentials
      modifies ledger, guest
      ensures Valid() && ok == run.answered
      ensures ledger.open == old(ledger.open) + {target.hostIp} && guest.credentials == old(guest.credentials)
      ensures ledger.byAddress ==
              if ok then old(ledger.byAddress)[target.hostIp := Entry(target.role, Verified)] else old(ledger.byAddress)
    {
      ledger.MarkConnectionOpen(target.hostIp);
      ok := guest.Use(target.hostIp, run);
      if ok { ledger.Mark(target, Verified); }
    }

    method Close(target: Target, run: ScriptRun) returns (ok: bool)
      requires Valid()
      modifies ledger, guest
      ensures Valid() && ok == Done(run, 1)
      ensures ledger.byAddress == old(ledger.byAddress) && guest.credentials == old(guest.credentials)
      ensures ledger.open == if ok then old(ledger.open) - {target.hostIp} else old(ledger.open)
    {
      ok := guest.RunClose(target.hostIp, run);
      if ok { ledger.MarkConnectionClosed(target.hostIp); }
    }

    /** Setup steps run over the share while its connection is tracked. */
    method RunSteps(target: Target, run: ScriptRun) returns (ok: bool)
      requires Valid() && target.hostIp in ledger.open
      modifies guest
      ensures Valid() && guest.credentials == old(guest.credentials) && ok == run.answered
    {
      ok := guest.Use(target.hostIp, run);
    }

    /** What the cleanup script does in the guest, item by item. */
    method RunCleanupScript(items: map<HostIp, bool>, run: CleanupRun) returns (good: set<HostIp>)
      modifies guest
      ensures good == set ip | ip in items && Cleaned(run, ip, items[ip])
      ensures guest.connections <= old(guest.connections)
      ensures forall ip :: ip in good ==> ip !in guest.connections && (items[ip] ==> ip !in guest.credentials)
      ensures guest.credentials.Keys <= old(guest.credentials).Keys
      ensures forall ip :: ip in guest.credentials ==> guest.credentials[ip] == old(guest.credentials)[ip]
      ensures forall ip :: ip in old(guest.credentials) && ip !in guest.credentials ==> ip in items && items[ip]
    {
      good := {};
      var todo := items.Keys;
      while todo != {}
        invariant todo <= items.Keys && good == set ip | ip in items && ip !in todo && Cleaned(run, ip, items[ip])
        invariant guest.connections <= old(guest.connections)
        invariant forall ip :: ip in good ==> ip !in guest.connections && (items[ip] ==> ip !in guest.credentials)
        invariant guest.credentials.Keys <= old(guest.credentials).Keys
        invariant forall ip :: ip in guest.credentials ==> guest.credentials[ip] == old(guest.credentials)[ip]
        invariant forall ip :: ip in old(guest.credentials) && ip !in guest.credentials ==> ip in items && items[ip]
        decreases |todo|
      {
        var ip :| ip in todo;
        todo := todo - {ip};
        if ip in run.results {
          var ok := guest.CleanItem(ip, items[ip], run.results[ip]);
          if ok { good := good + {ip}; }
        }
      }
    }

    /** The open connections, and the unverified entries, which are deleted too. */
    method CleanupItems() returns (items: map<HostIp, bool>)
      ensures items.Keys == ledger.open + Unverified(ledger.byAddress)
      ensures forall ip :: ip in items ==> (items[ip] <==> Has(ledger.byAddress, ip, Written))
    {
      var unverified := Unverified(ledger.byAddress);
      items := map ip | ip in ledger.open :: false;
      items := items + map ip | ip in unverified :: true;
    }

    /**
     * Cleanup closes what is open and deletes what was written and never verified, keeps the rest,
     * and leaves no entry merely written; with nothing to do it does nothing.
     */
    method Cleanup(run: CleanupRun)
      requires Valid()
      modifies ledger, guest
      ensures Valid()
      ensures ledger.byAddress.Keys == old(ledger.byAddress).Keys
      ensures forall ip :: ip in ledger.byAddress ==>
                if Has(old(ledger.byAddress), ip, Written)
                then ledger.byAddress[ip].status ==
                     (if run.arrived && ip in run.results && run.results[ip].effects >= 2 && run.results[ip].answered
                      then Removed else RemovalFailed)
                else ledger.byAddress[ip] == old(ledger.byAddress)[ip]
      ensures forall ip :: ip in old(guest.credentials) && ip !in guest.credentials ==> Has(old(ledger.byAddress), ip, Written)
      ensures forall ip :: ip in guest.credentials ==>
                ip in old(guest.credentials) && guest.credentials[ip] == old(guest.credentials)[ip]
      ensures forall ip :: ip in ledger.open <==>
                ip in old(ledger.open) && !(run.arrived && ip in run.results && run.results[ip].answered
                                            && run.results[ip].effects >= if Has(old(ledger.byAddress), ip, Written) then 2 else 1)
      ensures old(ledger.open) == {} && Unverified(old(ledger.byAddress)) == {} ==>
                && ledger.byAddress == old(ledger.byAddress) && ledger.open == {}
                && guest.credentials == old(guest.credentials) && guest.connections == old(guest.connections)
    {
      var items := CleanupItems();
      if items.Keys == {} { return; }
      var good := RunCleanupScript(items, run);
      if !run.arrived { good := {}; }
      Settle(items, good);
      CleanedAccounts(old(ledger.byAddress), old(ledger.open), old(guest.credentials), old(guest.connections), initial,
                      items, good, guest.credentials, guest.connections);
      SettledIs(old(ledger.byAddress), items, good);
      hide Settled, Accounts;
    }

    /** Marks what the cleanup script reported, item by item. */
    method Settle(items: map<HostIp, bool>, good: set<HostIp>)
      requires good <= items.Keys
      modifies ledger
      ensures ledger.byAddress == Settled(old(ledger.byAddress), items, good, {})
      ensures ledger.open == old(ledger.open) - good
    {
      var todo := items.Keys;
      assert ledger.byAddress == Settled(old(ledger.byAddress), items, good, todo);
      while todo != {}
        invariant todo <= items.Keys
        invariant ledger.byAddress == Settled(old(ledger.byAddress), items, good, todo)
        invariant ledger.open == old(ledger.open) - (good - todo)
        decreases |todo|
      {
        var ip :| ip in todo;
        todo := todo - {ip};
        if ip in good {
          ledger.MarkConnectionClosed(ip);
          if items[ip] { ledger.SetStatus(ip, Removed); }
        } else if items[ip] {
          ledger.SetStatus(ip, RemovalFailed);
        }
      }
    }
  }

  /** The entries with every item marked but those still to do. */
  function Settled(entries: map<HostIp, Entry>, items: map<HostIp, bool>, good: set<HostIp>, todo: set<HostIp>): map<HostIp, Entry> {
    map ip | ip in entries ::
      if ip in items && items[ip] && ip !in todo then Entry(entries[ip].role, if ip in good then Removed else RemovalFailed)
      else entries[ip]
  }

  lemma SettledIs(entries: map<HostIp, Entry>, items: map<HostIp, bool>, good: set<HostIp>)
    ensures var after := Settled(entries, items, good, {});
      && after.Keys == entries.Keys
      && forall ip :: ip in entries ==>
           && (ip in items && items[ip] ==> after[ip].status == if ip in good then Removed else RemovalFailed)
           && (ip !in items || !items[ip] ==> after[ip] == entries[ip])
  {
  }

  /** Once what the script reported is marked, the ledger accounts for the guest again. */
  lemma CleanedAccounts(entries: map<HostIp, Entry>, open: set<HostIp>, credentials: map<HostIp, Secret>,
                        connections: set<HostIp>, initial: map<HostIp, Secret>, items: map<HostIp, bool>, good: set<HostIp>,
                        left: map<HostIp, Secret>, stillConnected: set<HostIp>)
    requires Accounts(entries, open, credentials, connections, initial) && good <= items.Keys
    requires forall ip :: ip in items ==> (items[ip] <==> Has(entries, ip, Written))
    requires stillConnected <= connections && left.Keys <= credentials.Keys
    requires forall ip :: ip in good ==> ip !in stillConnected && (items[ip] ==> ip !in left)
    requires forall ip :: ip in left ==> left[ip] == credentials[ip]
    requires forall ip :: ip in credentials && ip !in left ==> ip in items && items[ip]
    ensures Accounts(Settled(entries, items, good, {}), open - good, left, stillConnected, initial)
  {
  }

  lemma Restricted(a: map<HostIp, Secret>, b: map<HostIp, Secret>, gone: HostIp, ip: HostIp)
    requires a - {gone} == b - {gone} && ip != gone
    ensures ip in a <==> ip in b
    ensures ip in a ==> a[ip] == b[ip]
  {
    assert ip in a - {gone} <==> ip in a;
    assert ip in b - {gone} <==> ip in b;
  }
}
