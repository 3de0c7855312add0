/**
 * The plugin registry of proxy/Plugin.cc: `PluginManager` holds the list of
 * registered plugins, loads one plugin per line of plugin.config, and finds
 * plugins by name.
 *
 * The dynamic loader and the plugin's own `TSPluginInit` are outside the
 * model; a `LoadEnv` says, for one `load`, what they do.
 */
module PluginManagement {
  import opened Wrappers
  import opened PluginCore
  import PluginConfig

  // ---------------------------------------------------------------------------
  // Case-insensitive names
  // ---------------------------------------------------------------------------

  /** ASCII lower case, as `strcasecmp` folds characters. */
  function Lower(c: char): (r: char)
    ensures ('A' <= c <= 'Z') ==> r as int == c as int + 32
    ensures !('A' <= c <= 'Z') ==> r == c
    ensures !('A' <= r <= 'Z')
  {
    if 'A' <= c <= 'Z' then (c as int + 32) as char else c
  }

  /** A string folded to lower case. */
  function LowerStr(s: string): (r: string)
    ensures |r| == |s| && forall i :: 0 <= i < |s| ==> r[i] == Lower(s[i])
  {
    if s == [] then [] else [Lower(s[0])] + LowerStr(s[1..])
  }

  /**
   * `strcasecmp(a, b) == 0`: the two strings are compared character by
   * character after folding, and equal when they end together.
   */
  predicate EqualsIgnoreCase(a: string, b: string)
  {
    if a == [] || b == [] then a == [] && b == []
    else Lower(a[0]) == Lower(b[0]) && EqualsIgnoreCase(a[1..], b[1..])
  }

  /** Two names match exactly when their lower-case forms are the same. */
  lemma {:induction false} EqualsIgnoreCaseIff(a: string, b: string)
    ensures EqualsIgnoreCase(a, b) <==> LowerStr(a) == LowerStr(b)
  {
    if a != [] && b != [] {
      EqualsIgnoreCaseIff(a[1..], b[1..]);
      assert LowerStr(a) == [Lower(a[0])] + LowerStr(a[1..]);
      assert LowerStr(b) == [Lower(b[0])] + LowerStr(b[1..]);
      if LowerStr(a) == LowerStr(b) {
        assert LowerStr(a)[1..] == LowerStr(a[1..]);
        assert LowerStr(b)[1..] == LowerStr(b[1..]);
      }
    }
  }

  /** Case-insensitive matching is symmetric. */
  lemma EqualsIgnoreCaseSymmetric(a: string, b: string)
    ensures EqualsIgnoreCase(a, b) <==> EqualsIgnoreCase(b, a)
  {
    EqualsIgnoreCaseIff(a, b);
    EqualsIgnoreCaseIff(b, a);
  }

  // ---------------------------------------------------------------------------
  // What the loader and the plugin do
  // ---------------------------------------------------------------------------

  /**
   * One `load` as the world answers it: whether `dlopen` succeeds (and the
   * handle it gives), whether `TSPluginInit` is found, and whether the
   * plugin's init registers itself, under which name.
   */
  datatype LoadEnv = LoadEnv(opens: bool, handle: nat, hasInit: bool, registers: Option<string>)

  /**
   * `TSPluginRegister` as the plugin's init calls it: the plugin in context
   * on the thread is marked registered and takes the given name.
   */
  method Register(slot: ThreadSlot, name: string)
    requires Get(slot) != null
    modifies Get(slot)`registered, Get(slot)`name
    ensures Get(slot).registered && Get(slot).name == name
  {
    var p := slot.value;
    p.registered := true;
    p.name := name;
  }

  /**
   * How one `load` ends: it returns true, it returns false, or `Fatal` ends
   * the process.
   */
  datatype LoadStatus = Success | Failure | Fatal

  /**
   * How `load` ends for a plugin, given what the world does: a failed
   * `dlopen` is fatal unless errors are passed over; a missing
   * `TSPluginInit` is a failure when errors are passed over and fatal
   * otherwise; a plugin that does not register itself is always fatal.
   */
  function Attempt(continueOnError: bool, env: LoadEnv): LoadStatus
  {
    if !env.opens && !continueOnError then Fatal
    else if !env.hasInit then (if continueOnError then Failure else Fatal)
    else if env.registers.None? then Fatal
    else Success
  }

  // ---------------------------------------------------------------------------
  // The manager
  // ---------------------------------------------------------------------------

  const InternalName: string := "TrafficServer Internal"
  const DefaultName: string := "TrafficServer Default"
  const AsfVendor: string := "Apache Software Foundation"
  const DevEmail: string := "dev@trafficserver.apache.org"

  class PluginManager {
    /** `plugin_reg_list`, head first. */
    var regList: seq<PluginInfo>
    /** `Internal_Plugin_Info` and `Default_Plugin_Info`. */
    const internalInfo: PluginInfo
    const defaultInfo: PluginInfo
    /** `ink_filepath_make` against `plugin_dir`: the path a plugin name resolves to. */
    const pluginPath: string -> string

    /**
     * Clears the thread's plugin and sets up the internal and default plugin
     * records: their names, the vendor, the path "." and the developers' mail.
     */
    constructor (slot: ThreadSlot, pluginPath: string -> string)
      modifies slot
      ensures Get(slot) == null && regList == [] && this.pluginPath == pluginPath
      ensures internalInfo.name == InternalName && defaultInfo.name == DefaultName
      ensures internalInfo.vendor == AsfVendor && defaultInfo.vendor == AsfVendor
      ensures internalInfo.filePath == "." && defaultInfo.filePath == "."
      ensures internalInfo.email == DevEmail && defaultInfo.email == DevEmail
      ensures fresh(internalInfo) && fresh(defaultInfo) && internalInfo != defaultInfo
    {
      slot.value := null;
      var internal := new PluginInfo();
      internal.name, internal.vendor, internal.filePath, internal.email := InternalName, AsfVendor, ".", DevEmail;
      var default := new PluginInfo();
      default.name, default.vendor, default.filePath, default.email := DefaultName, AsfVendor, ".", DevEmail;
      regList := [];
      internalInfo := internal;
      defaultInfo := default;
      this.pluginPath := pluginPath;
    }

    /** `initForThread`: a new thread starts with the default plugin in context. */
    method InitForThread(slot: ThreadSlot)
      modifies slot
      ensures Get(slot) == defaultInfo
    {
      SetDefaultPluginInfo(slot, defaultInfo);
    }

    /**
     * `find`: the first plugin of the list whose name matches `name` without
     * regard to case, or null when none does.
     */
    method Find(name: string) returns (r: PluginInfo?)
      ensures r == null <==> forall i :: 0 <= i < |regList| ==> !EqualsIgnoreCase(name, regList[i].name)
      ensures r != null ==> exists i :: (0 <= i < |regList| && r == regList[i] && EqualsIgnoreCase(name, r.name)
        && forall j :: 0 <= j < i ==> !EqualsIgnoreCase(name, regList[j].name))
    {
      var i := 0;
      while i < |regList|
        invariant 0 <= i <= |regList|
        invariant forall j :: 0 <= j < i ==> !EqualsIgnoreCase(name, regList[j].name)
      {
        if EqualsIgnoreCase(name, regList[i].name) {
          return regList[i];
        }
        i := i + 1;
      }
      return null;
    }

    /** The scan for a plugin already loaded from `path` in `PluginManager::load`; it only leads to a warning. */
    method IsLoaded(path: string) returns (dup: bool)
      ensures dup <==> exists i :: 0 <= i < |regList| && regList[i].filePath == path
    {
      dup := false;
      var i := 0;
      while i < |regList|
        invariant 0 <= i <= |regList|
        invariant forall j :: 0 <= j < i ==> regList[j].filePath != path
      {
        if regList[i].filePath == path {
          return true;
        }
        i := i + 1;
      }
    }

    /**
     * `load`: with no arguments there is nothing to do. Otherwise the
     * plugin's path is resolved; a failed `dlopen` ends the load unless
     * errors are to be passed over; a fresh record takes the path and handle;
     * without `TSPluginInit` the load fails; the init runs with the new
     * record in context; and the record joins the head of the list only if
     * the plugin registered itself. A path loaded before does not stop the
     * load. Where the source calls `Fatal`, the status is `Fatal`.
     */
    method Load(args: seq<string>, continueOnError: bool, env: LoadEnv, slot: ThreadSlot) returns (st: LoadStatus)
      modifies this, slot
      ensures st == if |args| < 1 then Success else Attempt(continueOnError, env)
      ensures Get(slot) == old(Get(slot))
      ensures st != Success || |args| < 1 ==> regList == old(regList)
      ensures st == Success && |args| >= 1 ==>
        && |regList| == |old(regList)| + 1 && regList[1..] == old(regList) && fresh(regList[0])
        && regList[0].filePath == pluginPath(args[0]) && regList[0].registered
        && regList[0].name == env.registers.value
        && regList[0].dlh == (if env.opens then Some(env.handle) else None)
    {
      if |args| < 1 {
        return Success;
      }
      var path := pluginPath(args[0]);
      var dup := IsLoaded(path);
      if !env.opens && !continueOnError {
        return Fatal;
      }
      var info := new PluginInfo();
      info.filePath := path;
      info.dlh := if env.opens then Some(env.handle) else None;
      if !env.hasInit {
        return if continueOnError then Failure else Fatal;
      }
      var pc := new PluginContext(slot, info);
      if env.registers.Some? {
        Register(slot, env.registers.value);
      }
      pc.Destroy();
      if info.registered {
        regList := [info] + regList;
        return Success;
      }
      return Fatal;
    }

    /**
     * One line of plugin.config in `PluginManager::init`: the line is read into the
     * 1024-character buffer and cut into arguments; a blank or comment line
     * is passed over, any other is expanded and handed to `load`.
     */
    method ProcessLine(text: string, continueOnError: bool, env: LoadEnv, lookup: string -> Option<string>, slot: ThreadSlot)
      returns (loaded: bool, st: LoadStatus)
      requires |text| < LineSize && forall k :: 0 <= k < |text| ==> text[k] != '\0'
      modifies this, slot
      ensures loaded <==> !PluginConfig.Blank(text)
      ensures loaded ==> 1 <= |PluginConfig.LineArgs(text, lookup)| && st == Attempt(continueOnError, env)
      ensures Get(slot) == old(Get(slot))
      ensures !(loaded && st == Success) ==> regList == old(regList)
      ensures loaded && st == Success ==>
        && |regList| == |old(regList)| + 1 && regList[1..] == old(regList)
        && regList[0].filePath == pluginPath(PluginConfig.LineArgs(text, lookup)[0])
    {
      var line := new char[LineSize](i requires 0 <= i < LineSize => if i < |text| then text[i] else '\0');
      ghost var b := line[..];
      BufferText(b, text);
      var skip, argc, argv := PluginConfig.TokenizeLine(line);
      if skip {
        return false, Success;
      }
      PluginConfig.OtherLineHasTokens(text);
      PluginConfig.LineArguments(b);
      var args := PluginConfig.CArgs(line[..], argv);
      var vars := PluginConfig.ExpandArgs(args, lookup);
      st := Load(vars, continueOnError, env, slot);
      loaded := true;
    }

    /**
     * `init`: unless the configuration cannot be opened, every line is
     * processed in order; a fatal load ends the process there; otherwise the
     * result is that of the last `load`, or true when there was none.
     */
    method Init(opens: bool, texts: seq<string>, continueOnError: bool, envs: seq<LoadEnv>,
                lookup: string -> Option<string>, slot: ThreadSlot) returns (r: InitOutcome)
      requires |envs| == |texts|
      requires forall i, k :: 0 <= i < |texts| && 0 <= k < |texts[i]| ==> texts[i][k] != '\0'
      requires forall i :: 0 <= i < |texts| ==> |texts[i]| < LineSize
      modifies this, slot
      ensures r == if opens then InitFrom(texts, continueOnError, envs, 0, true) else Finished(false)
      ensures Get(slot) == old(Get(slot))
      ensures |old(regList)| <= |regList| && regList[|regList| - |old(regList)|..] == old(regList)
    {
      if !opens {
        return Finished(false);
      }
      var retVal := true;
      var i := 0;
      while i < |texts|
        invariant 0 <= i <= |texts|
        invariant InitFrom(texts, continueOnError, envs, i, retVal) == InitFrom(texts, continueOnError, envs, 0, true)
        invariant Get(slot) == old(Get(slot))
        invariant |old(regList)| <= |regList| && regList[|regList| - |old(regList)|..] == old(regList)
      {
        ghost var before := regList;
        var loaded, st := ProcessLine(texts[i], continueOnError, envs[i], lookup, slot);
        SuffixStep(old(regList), before, regList);
        if loaded {
          if st == Fatal {
            return Halted;
          }
          retVal := st == Success;
        }
        i := i + 1;
      }
      return Finished(retVal);
    }
  }

  /** `sizeof(line)` in `init`; the reader stores at most 1023 characters and a NUL. */
  const LineSize: nat := 1024

  /** A buffer holding `text` and then a NUL has `text` as its C string. */
  lemma BufferText(b: seq<char>, text: string)
    requires |text| < |b| && b[|text|] == '\0'
    requires forall k :: 0 <= k < |text| ==> b[k] == text[k] && text[k] != '\0'
    ensures PluginConfig.NulFrom(b, 0) && PluginConfig.Text(b) == text
  {
    assert PluginConfig.NulFrom(b, 0);
    var n := PluginConfig.NulIndex(b, 0);
    assert n == |text|;
  }

  /** One more line either leaves the result alone (a blank line) or replaces it by that line's load result. */
  lemma SuffixStep(base: seq<PluginInfo>, mid: seq<PluginInfo>, last: seq<PluginInfo>)
    requires |base| <= |mid| && mid[|mid| - |base|..] == base
    requires last == mid || (|last| == |mid| + 1 && last[1..] == mid)
    ensures |base| <= |last| && last[|last| - |base|..] == base
  {
    if last != mid {
      assert last[|last| - |base|..] == last[1..][|mid| - |base|..];
    }
  }

  /** How `init` ends: with its result, or not at all because a load was fatal. */
  datatype InitOutcome = Finished(result: bool) | Halted

  /**
   * `init` from line `i` on, with `acc` the result so far: blank and comment
   * lines are passed over, a fatal load halts, and any other load sets the
   * result.
   */
  function InitFrom(texts: seq<string>, continueOnError: bool, envs: seq<LoadEnv>, i: nat, acc: bool): InitOutcome
    requires |envs| == |texts| && i <= |texts|
    decreases |texts| - i
  {
    if i == |texts| then Finished(acc)
    else if PluginConfig.Blank(texts[i]) then InitFrom(texts, continueOnError, envs, i + 1, acc)
    else
      var st := Attempt(continueOnError, envs[i]);
      if st == Fatal then Halted else InitFrom(texts, continueOnError, envs, i + 1, st == Success)
  }

  /** A line whose load is fatal stops `init`, whatever the lines around it. */
  lemma {:induction false} FatalHalts(texts: seq<string>, continueOnError: bool, envs: seq<LoadEnv>, i: nat, acc: bool, j: nat)
    requires |envs| == |texts| && i <= j < |texts|
    requires !PluginConfig.Blank(texts[j]) && Attempt(continueOnError, envs[j]) == Fatal
    ensures InitFrom(texts, continueOnError, envs, i, acc) == Halted
    decreases j - i
  {
    if i < j {
      if PluginConfig.Blank(texts[i]) {
        FatalHalts(texts, continueOnError, envs, i + 1, acc, j);
      } else if Attempt(continueOnError, envs[i]) != Fatal {
        FatalHalts(texts, continueOnError, envs, i + 1, Attempt(continueOnError, envs[i]) == Success, j);
      }
    }
  }

  /** With only blank and comment lines left, the result stays what it was. */
  lemma {:induction false} BlankLinesKeep(texts: seq<string>, continueOnError: bool, envs: seq<LoadEnv>, i: nat, acc: bool)
    requires |envs| == |texts| && i <= |texts|
    requires forall k :: i <= k < |texts| ==> PluginConfig.Blank(texts[k])
    ensures InitFrom(texts, continueOnError, envs, i, acc) == Finished(acc)
    decreases |texts| - i
  {
    if i < |texts| {
      BlankLinesKeep(texts, continueOnError, envs, i + 1, acc);
    }
  }

  /**
   * When no load is fatal, the result of `init` is that of the load of the
   * last line that is neither blank nor a comment.
   */
  lemma {:induction false} LastLoadDecides(texts: seq<string>, continueOnError: bool, envs: seq<LoadEnv>, i: nat, acc: bool, j: nat)
    requires |envs| == |texts| && i <= j < |texts| && !PluginConfig.Blank(texts[j])
    requires forall k :: j < k < |texts| ==> PluginConfig.Blank(texts[k])
    requires forall k :: i <= k <= j && !PluginConfig.Blank(texts[k]) ==> Attempt(continueOnError, envs[k]) != Fatal
    ensures InitFrom(texts, continueOnError, envs, i, acc) == Finished(Attempt(continueOnError, envs[j]) == Success)
    decreases j - i
  {
    if i == j {
      BlankLinesKeep(texts, continueOnError, envs, j + 1, Attempt(continueOnError, envs[j]) == Success);
    } else if PluginConfig.Blank(texts[i]) {
      LastLoadDecides(texts, continueOnError, envs, i + 1, acc, j);
    } else {
      LastLoadDecides(texts, continueOnError, envs, i + 1, Attempt(continueOnError, envs[i]) == Success, j);
    }
  }
}
