/**
 * The registry of running ingestion services, one per connected Gmail
 * account, and the three routes that use it: the OAuth callback registers a
 * service, the account list reports which accounts have one, and disconnect
 * stops and removes it.
 *
 * The registry's lock and the service threads are not modelled; the token
 * exchange and the token directory are parameters.
 */
module EmailRegistry {
  import opened Wrappers
  import opened Text
  import opened EmailIngestion

  /** One `<email>.json` token file; `readable` is false when reading or decoding it raises. */
  datatype TokenFile = TokenFile(stem: String, readable: bool)

  /** One entry of the account list. */
  datatype Account = Account(email: String, isActive: bool)

  predicate Readable(f: TokenFile) { f.readable }

  class ServiceManager {
    var services: map<String, IngestionService>

    constructor()
      ensures services == map[]
    {
      services := map[];
    }

    /** `get_service`: the registered service, or `None`. */
    method GetService(email: String) returns (s: Option<IngestionService>)
      ensures s.Some? <==> email in services
      ensures s.Some? ==> s.value == services[email]
    {
      s := if email in services then Some(services[email]) else None;
    }

    /** `add_service`: registers `service`, replacing any earlier service of that account. */
    method AddService(email: String, service: IngestionService)
      modifies this
      ensures services == old(services)[email := service]
      ensures email in services && services[email] == service
      ensures forall e :: e != email ==> (e in services <==> e in old(services)) && (e in services ==> services[e] == old(services)[e])
    {
      services := services[email := service];
    }

    /** `remove_service`: unregisters that account only; an absent account is a no-op. */
    method RemoveService(email: String)
      modifies this
      ensures services == old(services) - {email}
      ensures email !in old(services) ==> services == old(services)
    {
      if email in services {
        services := services - {email};
      }
    }

    /** `get_all_services`: a copy, which as a map value later registry changes leave as it is. */
    method GetAllServices() returns (copy: map<String, IngestionService>)
      ensures copy == services
    {
      copy := services;
    }

    /**
     * `auth_callback` once the code exchange has named the account: a new service (reading
     * the account's state file, `stateFile`) is registered only if the account has none.
     */
    method AuthCallback(email: String, stateFile: Option<seq<String>>) returns (registered: bool)
      modifies this
      ensures registered <==> email !in old(services)
      ensures !registered ==> services == old(services)
      ensures email in services
      ensures registered ==>
        fresh(services[email]) && services[email].email == email && services[email].IsRunning() &&
        services == old(services)[email := services[email]]
    {
      var existing := GetService(email);
      registered := existing.None?;
      if registered {
        var service := new IngestionService(email, stateFile);
        AddService(email, service);
      }
    }

    /** `disconnect_account`: a registered service is stopped and removed; the token file is left out. */
    method Disconnect(email: String)
      modifies this, if email in services then {services[email]} else {}
      ensures services == old(services) - {email}
      ensures email in old(services) ==> old(services[email]).stopped
    {
      var existing := GetService(email);
      if existing.Some? {
        existing.value.Stop();
        RemoveService(email);
      }
    }

    /**
     * `get_connected_accounts` over the token files in glob order: one entry per readable
     * file, active exactly when its account has a registered service.
     */
    method ConnectedAccounts(files: seq<TokenFile>) returns (accounts: seq<Account>)
      ensures var kept := Filter(files, Readable);
        |accounts| == |kept| &&
        forall k :: 0 <= k < |kept| ==> accounts[k] == Account(kept[k].stem, kept[k].stem in services)
    {
      var all := GetAllServices();
      accounts := [];
      for i := 0 to |files|
        invariant var kept := Filter(files[..i], Readable);
          |accounts| == |kept| &&
          forall k :: 0 <= k < |kept| ==> accounts[k] == Account(kept[k].stem, kept[k].stem in services)
      {
        FilterAppend(files[..i], [files[i]], Readable);
        assert files[..i + 1] == files[..i] + [files[i]];
        if files[i].readable {
          accounts := accounts + [Account(files[i].stem, files[i].stem in all)];
        }
      }
      assert files[..|files|] == files;
    }
  }
}
