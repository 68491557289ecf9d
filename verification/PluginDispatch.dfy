/** DispatchPluginEvent over the registry of event clients. */
module PluginDispatch {
  import opened Events
  import opened EventBus
  import opened EventClients
  import opened PluginFilter

  /** The inner loop: search a filter for the source's name. */
  method Listed(entry: Entry, source: string) returns (found: bool)
    ensures found == Wants(entry, source)
  {
    hide SameName;
    var j := 0;
    while j < |entry.names|
      invariant j <= |entry.names| && forall i :: 0 <= i < j ==> !SameName(source, entry.names[i])
    {
      if SameName(source, entry.names[j]) { return true; }
      j := j + 1;
    }
    return false;
  }

  /** Send every plugin whose filter names the source one clone of the event. */
  method DispatchPluginEvent(registry: Registry, entries: seq<Entry>, loaded: map<string, ClientId>,
                             source: string, e: Event, self: ClientId)
    requires registry.Valid()
    modifies registry`next, registry`destroyed, registry.clients
    ensures registry.Valid()
    ensures registry.View() == DeliverAll(old(registry.View()), entries, loaded, source, e, self)
  {
    hide Wants, DispatchCreated;
    ghost var bus := registry.View();
    var i := 0;
    while i < |entries|
      invariant i <= |entries| && registry.Valid()
      invariant registry.View() == DeliverAll(bus, entries[..i], loaded, source, e, self)
    {
      assert entries[..i + 1][..i] == entries[..i];
      var found := Listed(entries[i], source);
      if found && entries[i].name in loaded {
        registry.DispatchNewEvent(e, Some(self), To(loaded[entries[i].name]));
      }
      i := i + 1;
    }
    assert entries[..|entries|] == entries;
  }
}
