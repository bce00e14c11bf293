/** The commit step: clone, mutate, validate, write, activate, publish. */
module AdminServer {
  import opened Text
  import opened ConfigTypes
  import opened PolicyStore
  import opened PolicyManager
  import opened AdminModel
  import opened Configuration
  import opened Commands

  /** The server: its published configuration, the file behind it, and the active store's manager. */
  class Server {
    const zones: set<string>
    const manager: Manager
    var config: Cell
    var file: Config
    /** The profiles the active store was built from, and its index. */
    ghost var active: seq<ProfileRec>
    ghost var index: Index

    ghost predicate Valid()
      reads this, manager, config, config.profiles
    {
      config.Valid() && manager.store.Indexes(active, index)
    }

    /** The server's state as a value. */
    ghost function Contents(): Control
      reads this, config, config.houses, config.invitations, config.profiles
      reads RuleArrays(config.profiles[..]), AllDomainArrays(config.profiles[..])
      reads RuleArrays(active), AllDomainArrays(active)
    {
      Control(config.Value(), file, ProfileValues(active), index)
    }

    constructor (zones: set<string>, manager: Manager, config: Cell, file: Config, ghost active: seq<ProfileRec>,
                 ghost index: Index)
      requires config.Valid() && manager.store.Indexes(active, index)
      ensures Valid() && this.zones == zones && this.manager == manager
      ensures this.config == config && this.file == file && this.active == active && this.index == index
    {
      this.zones, this.manager, this.config, this.file := zones, manager, config, file;
      this.active, this.index := active, index;
    }

    /** One commit. Nothing but the server's own fields and the manager's store pointer changes: no array or list that
        the published configuration or the active store reaches is ever written. */
    method Update(cmd: Command, writable: bool) returns (ok: bool)
      requires Valid()
      modifies this, manager
      ensures Valid()
      ensures (Contents(), ok) == AdminModel.Update(zones, old(Contents()), cmd, writable)
      ensures if ok then fresh(config) else config == old(config)
      ensures !ok ==> manager.store == old(manager.store)
    {
      hide ProfileValue, ProfileValues, Separate, RuleArrays, AllDomainArrays, Next, Accept, NormalAll, NormalConfig,
           Cell.Value, AdminModel.Update, Saved, Store.Indexes;
      UpdateCases(zones, Contents(), cmd, writable);
      var next: Cell;
      next, ok := Prepare(config, zones, cmd);
      if !ok {
        NothingMoved();
        return false;
      }
      ghost var asked := next.Value();
      ok := Validate(zones, next);
      if !ok || !writable {
        NothingMoved();
        return false;
      }
      file := Saved(next.Value());
      ok := Activate(zones, next, manager);
      if !ok {
        NothingMoved();
        return false;
      }
      config := next;
      active, index := next.profiles[..], Accept(zones, NormalConfig(asked).profiles).value;
      ProfilesOf(next);
    }

    /** What the published configuration and the active store reach has its old contents. */
    twostate lemma NothingMoved()
      requires config == old(config) && active == old(active)
      requires unchanged(config) && unchanged(config.houses) && unchanged(config.invitations)
               && unchanged(config.profiles)
      requires forall i | 0 <= i < config.profiles.Length :: unchanged(config.profiles[i].rules)
      requires forall i, k | 0 <= i < config.profiles.Length && 0 <= k < |config.profiles[i].groups| ::
                 unchanged(config.profiles[i].groups[k].domains)
      requires forall i | 0 <= i < |active| :: unchanged(active[i].rules)
      requires forall i, k | 0 <= i < |active| && 0 <= k < |active[i].groups| :: unchanged(active[i].groups[k].domains)
      ensures config.Value() == old(config.Value()) && ProfileValues(active) == old(ProfileValues(active))
    {
      CellStays(config);
      ValuesStay(active);
    }
  }

  /** The four ways a commit ends. */
  lemma UpdateCases(zones: set<string>, st: Control, cmd: Command, writable: bool)
    ensures var next, after := Next(zones, st.config, cmd), AdminModel.Update(zones, st, cmd, writable);
            && (next.None? ==> after == (st, false))
            && (next.Some? ==>
                  var asked, written := next.value, NormalConfig(next.value);
                  var ix := Accept(zones, written.profiles);
                  && (Accept(zones, asked.profiles).None? || !writable ==> after == (st, false))
                  && (Accept(zones, asked.profiles).Some? && writable && ix.None? ==>
                      after == (st.(file := Saved(written)), false))
                  && (Accept(zones, asked.profiles).Some? && writable && ix.Some? ==>
                        var config := NormalConfig(written);
                        after == (Control(config, Saved(written), config.profiles, ix.value), true)))
  {
    hide Next, Accept, NormalConfig, Saved;
  }

  /** The trial run of validation, which rewrites the domains of the copy. */
  method Validate(zones: set<string>, next: Cell) returns (ok: bool)
    requires next.Valid()
    modifies RuleArrays(next.profiles[..]), AllDomainArrays(next.profiles[..])
    ensures ok <==> Accept(zones, old(next.Value()).profiles).Some?
    ensures ok ==> next.Value() == NormalConfig(old(next.Value()))
  {
    hide ProfileValue, ProfileValues, Separate, RuleArrays, AllDomainArrays, Accept, NormalAll, Store.Indexes;
    var store := NewStore(zones, next.profiles[..]);
    OnlyProfiles(next);
    return store.Some?;
  }

  /** Validation again, by the manager, which makes the result the active store. */
  method Activate(zones: set<string>, next: Cell, manager: Manager) returns (ok: bool)
    requires next.Valid()
    modifies manager, RuleArrays(next.profiles[..]), AllDomainArrays(next.profiles[..])
    ensures ok <==> Accept(zones, old(next.Value()).profiles).Some?
    ensures ok ==> next.Value() == NormalConfig(old(next.Value()))
    ensures ok ==> manager.store.Indexes(next.profiles[..], Accept(zones, old(next.Value()).profiles).value)
    ensures !ok ==> manager.store == old(manager.store)
  {
    hide ProfileValue, ProfileValues, Separate, RuleArrays, AllDomainArrays, Accept, NormalAll, Store.Indexes;
    ok := manager.Replace(zones, next.profiles[..]);
    OnlyProfiles(next);
  }

  twostate lemma CellStays(c: Cell)
    requires unchanged(c) && unchanged(c.houses) && unchanged(c.invitations) && unchanged(c.profiles)
    requires forall i | 0 <= i < c.profiles.Length :: unchanged(c.profiles[i].rules)
    requires forall i, k | 0 <= i < c.profiles.Length && 0 <= k < |c.profiles[i].groups| ::
               unchanged(c.profiles[i].groups[k].domains)
    ensures c.Value() == old(c.Value())
  {
    hide ProfileValues;
    ValuesStay(c.profiles[..]);
  }

  /** Only what its profiles reach has changed. */
  twostate lemma OnlyProfiles(c: Cell)
    requires unchanged(c) && unchanged(c.houses) && unchanged(c.invitations) && unchanged(c.profiles)
    ensures c.Value() == old(c.Value()).(profiles := ProfileValues(c.profiles[..]))
    ensures ProfileValues(c.profiles[..]) == c.Value().profiles
  {
    hide ProfileValues;
  }

  lemma ProfilesOf(c: Cell)
    ensures c.Value().profiles == ProfileValues(c.profiles[..])
  {
  }

  /** The copy, changed as the command asks and with its zones filled in; everything it reaches is new. */
  method Prepare(config: Cell, zones: set<string>, cmd: Command) returns (next: Cell, ok: bool)
    requires config.Valid()
    ensures ok == Next(zones, old(config.Value()), cmd).Some?
    ensures ok ==> Next(zones, old(config.Value()), cmd) == Some(next.Value())
    ensures ok ==> next.Valid() && fresh(next) && fresh(next.profiles) && fresh(next.houses) && fresh(next.invitations)
    ensures ok ==> forall a | a in RuleArrays(next.profiles[..]) :: fresh(a)
    ensures ok ==> forall a | a in AllDomainArrays(next.profiles[..]) :: fresh(a)
  {
    hide ProfileValue, ProfileValues, Separate, RuleArrays, AllDomainArrays, Mutated, Zoned, SameArrays;
    next := CloneConfig(config);
    ValuesStay(config.profiles[..]);
    ok := Mutate(next, zones, cmd);
    if !ok { return; }
    forall a | a in RuleArrays(next.profiles[..]) ensures fresh(a) { }
    forall a | a in AllDomainArrays(next.profiles[..]) ensures fresh(a) { }
    ghost var ps := next.profiles[..];
    ok := ApplyHouseTimeZones(next, zones);
    if !ok { return; }
    SameArraysSeparate(ps, next.profiles[..]);
  }

  /** The first server: zones are filled in, the profiles validated and activated, and a copy published. */
  method NewServer(zones: set<string>, manager: Manager, cfg: Cell, file: Config) returns (server: Option<Server>)
    requires cfg.Valid()
    modifies manager, cfg.houses, cfg.profiles, RuleArrays(cfg.profiles[..]), AllDomainArrays(cfg.profiles[..])
    ensures var zoned := Zoned(zones, old(cfg.Value()));
            && (server.Some? <==> zoned.Some? && Accept(zones, zoned.value.profiles).Some?)
            && (server.Some? ==>
                  && server.value.Valid() && server.value.zones == zones && server.value.manager == manager
                  && server.value.Contents() ==
                     Control(NormalConfig(zoned.value), file, NormalAll(zoned.value.profiles),
                             Accept(zones, zoned.value.profiles).value))
  {
    hide ProfileValue, ProfileValues, Separate, RuleArrays, AllDomainArrays, Accept, NormalAll, Zoned, SameArrays,
         Store.Indexes;
    ghost var before := cfg.profiles[..];
    var ok := ApplyHouseTimeZones(cfg, zones);
    if !ok { return None; }
    SameArraysSeparate(before, cfg.profiles[..]);
    ghost var zoned := cfg.Value();
    ok := Activate(zones, cfg, manager);
    if !ok { return None; }
    ghost var ps := cfg.profiles[..];
    ProfilesOf(cfg);
    label Active:
    var copy := CloneConfig(cfg);
    CellStays@Active(cfg);
    label Copied:
    var made := new Server(zones, manager, copy, file, ps, Accept(zones, zoned.profiles).value);
    CellStays@Copied(copy);
    ValuesStay@Active(ps);
    return Some(made);
  }
}
