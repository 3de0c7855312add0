/**
 * Plugin records and the per-thread "current plugin" of proxy/Plugin.h: the
 * registration record of a loaded plugin, the scoped `PluginContext` that sets
 * and restores the current plugin around a callback, and the defaults of
 * `PluginIdentity`.
 */
module PluginCore {
  import opened Wrappers

  /** `PluginInfo::MAGIC`. */
  const Magic: int := 0xabacab56

  /**
   * `PluginInfo` together with the vendor and e-mail of `GlobalPluginInfo`:
   * where the library was loaded from, the name it registered, the library
   * handle and the registered / disabled flags.
   */
  class PluginInfo {
    var filePath: string
    var name: string
    var vendor: string
    var email: string
    var magic: int
    var dlh: Option<nat>
    var registered: bool
    var disabled: bool

    /** A fresh record: the magic value, no library handle, every flag clear. */
    constructor ()
      ensures magic == Magic && dlh == None && !registered && !disabled
      ensures filePath == "" && name == "" && vendor == "" && email == ""
    {
      filePath, name, vendor, email := "", "", "", "";
      magic, dlh, registered, disabled := Magic, None, false, false;
    }
  }

  /**
   * The value a thread holds under `PluginContext::THREAD_KEY`: the plugin in
   * context on that thread, or null.
   */
  class ThreadSlot {
    var value: PluginInfo?

    constructor ()
      ensures value == null
    {
      value := null;
    }
  }

  /** `PluginContext::get`: the plugin in context on the thread, or null when there is none. */
  function Get(slot: ThreadSlot): PluginInfo?
    reads slot
  {
    slot.value
  }

  /**
   * `PluginContext::setDefaultPluginInfo`: makes `p` the thread's plugin,
   * whatever was in context before.
   */
  method SetDefaultPluginInfo(slot: ThreadSlot, p: PluginInfo?)
    modifies slot
    ensures Get(slot) == p
  {
    slot.value := p;
  }

  /**
   * A scoped plugin context: creating one saves the thread's current plugin
   * and puts `plugin` in context; destroying it puts the saved one back.
   */
  class PluginContext {
    const slot: ThreadSlot
    var save: PluginInfo?

    constructor (slot: ThreadSlot, plugin: PluginInfo?)
      modifies slot
      ensures this.slot == slot && save == old(slot.value)
      ensures Get(slot) == plugin
    {
      this.slot := slot;
      save := slot.value;
      new;
      slot.value := plugin;
    }

    /** The destructor. */
    method Destroy()
      modifies slot
      ensures Get(slot) == save
    {
      slot.value := save;
    }
  }

  /**
   * Nested callbacks: each one runs with its plugin in context and may make
   * nested calls of its own.
   */
  datatype Callback = Callback(plugin: PluginInfo?, nested: seq<Callback>)

  /**
   * Runs `calls` one after another, each inside its own `PluginContext`.
   * Gives, for every callback in the order the calls start, the plugin
   * `PluginContext::get` reports when it starts; the context is re-entrant, so
   * afterwards the thread's plugin is what it was before.
   */
  method RunCallbacks(slot: ThreadSlot, calls: seq<Callback>) returns (seen: seq<PluginInfo?>)
    modifies slot
    ensures Get(slot) == old(Get(slot))
    ensures seen == Starts(calls)
    decreases calls
  {
    seen := [];
    var i := 0;
    while i < |calls|
      invariant 0 <= i <= |calls|
      invariant Get(slot) == old(Get(slot))
      invariant seen == Starts(calls[..i])
    {
      var c := calls[i];
      var pc := new PluginContext(slot, c.plugin);
      var entered := Get(slot);
      var inner := RunCallbacks(slot, c.nested);
      pc.Destroy();
      StartsAppend(calls[..i], c);
      seen := seen + [entered] + inner;
      assert calls[..i + 1] == calls[..i] + [c];
      i := i + 1;
    }
    assert calls[..i] == calls;
  }

  /** The plugin each callback sees on entry, depth first. */
  function Starts(calls: seq<Callback>): seq<PluginInfo?>
  {
    if calls == [] then [] else [calls[0].plugin] + Starts(calls[0].nested) + Starts(calls[1..])
  }

  lemma {:induction false} StartsAppend(calls: seq<Callback>, c: Callback)
    ensures Starts(calls + [c]) == Starts(calls) + [c.plugin] + Starts(c.nested)
  {
    if calls == [] {
      assert [c][1..] == [];
    } else {
      assert (calls + [c])[1..] == calls[1..] + [c];
      StartsAppend(calls[1..], c);
    }
  }

  /** `PluginIdentity::getPluginTag`: by default there is no tag. */
  function DefaultPluginTag(): Option<string>
  {
    None
  }

  /** `PluginIdentity::getPluginId`: by default the instance id is 0. */
  function DefaultPluginId(): int
  {
    0
  }
}
