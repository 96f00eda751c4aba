/**
 * Detection of ripgrep and fd (context_mcp/utils/tool_detector.py): one
 * detector per process, which probes each tool once, on first construction.
 * `shutil.which` and the `--version` run are inputs, one answer per tool name.
 */
module ToolDetection {
  import opened Wrappers

  /** How `subprocess.run([tool, "--version"], timeout=5)` ended. */
  datatype ProbeOutcome = Exited(returnCode: int) | ProbeNotFound | ProbeTimedOut | ProbeOSError

  /** What the system answers: the PATH lookup and the version run, per tool name. */
  datatype ToolEnv = ToolEnv(which: string -> Option<string>, probe: string -> ProbeOutcome)

  /** `_check_tool`: the path from the PATH lookup, kept only if the version run exits with 0. */
  function CheckTool(env: ToolEnv, toolName: string): (r: Option<string>)
    ensures r.Some? <==> env.which(toolName).Some? && env.probe(toolName) == Exited(0)
    ensures r.Some? ==> r == env.which(toolName)
  {
    match env.which(toolName)
    case None => None
    case Some(toolPath) =>
      match env.probe(toolName)
      case Exited(code) => if code == 0 then Some(toolPath) else None
      case ProbeNotFound => None
      case ProbeTimedOut => None
      case ProbeOSError => None
  }

  /** Not on PATH, a non-zero exit, a missing executable, a timeout and an OS error each mean "not available". */
  lemma CheckToolFailures(env: ToolEnv, toolName: string)
    ensures env.which(toolName).None? ==> CheckTool(env, toolName).None?
    ensures env.probe(toolName).Exited? && env.probe(toolName).returnCode != 0 ==> CheckTool(env, toolName).None?
    ensures env.probe(toolName) in {ProbeNotFound, ProbeTimedOut, ProbeOSError} ==> CheckTool(env, toolName).None?
  {
  }

  class ToolDetector {
    var initialized: bool
    var ripgrepPath: Option<string>
    var fdPath: Option<string>

    /** `__new__` on the first construction: a fresh object, not yet initialised. */
    constructor ()
      ensures !initialized && ripgrepPath.None? && fdPath.None?
    {
      initialized := false;
      ripgrepPath := None;
      fdPath := None;
    }

    /** `__init__`: detects both tools the first time and does nothing afterwards. */
    method Init(env: ToolEnv)
      modifies this
      ensures old(initialized) ==> unchanged(this)
      ensures !old(initialized) ==>
        initialized && ripgrepPath == CheckTool(env, "rg") && fdPath == CheckTool(env, "fd")
    {
      if initialized {
        return;
      }
      initialized := true;
      ripgrepPath := None;
      fdPath := None;
      DetectRipgrep(env);
      DetectFd(env);
    }

    method DetectRipgrep(env: ToolEnv)
      modifies this
      ensures ripgrepPath == CheckTool(env, "rg")
      ensures initialized == old(initialized) && fdPath == old(fdPath)
    {
      ripgrepPath := CheckTool(env, "rg");
    }

    method DetectFd(env: ToolEnv)
      modifies this
      ensures fdPath == CheckTool(env, "fd")
      ensures initialized == old(initialized) && ripgrepPath == old(ripgrepPath)
    {
      fdPath := CheckTool(env, "fd");
    }

    predicate HasRipgrep()
      reads this
    {
      ripgrepPath.Some?
    }

    predicate HasFd()
      reads this
    {
      fdPath.Some?
    }
  }

  /** Whether the tool would be found available, from the system's answers alone. */
  predicate Available(env: ToolEnv, toolName: string)
  {
    env.which(toolName).Some? && env.probe(toolName) == Exited(0)
  }

  /** The class attribute `_instance`, shared by every construction. */
  class Registry {
    var instance: ToolDetector?

    /** Once an instance exists it has been initialised. */
    predicate Valid()
      reads this, instance
    {
      instance != null ==> instance.initialized
    }

    constructor ()
      ensures Valid() && instance == null
    {
      instance := null;
    }

    /**
     * `ToolDetector()`: `__new__` returns the shared instance (creating it the
     * first time) and `__init__` runs on it.
     */
    method Construct(env: ToolEnv) returns (d: ToolDetector)
      requires Valid()
      modifies this, instance
      ensures Valid() && instance == d
      ensures old(instance) != null ==> d == old(instance) && unchanged(d)
      ensures old(instance) == null ==>
        fresh(d) && d.initialized
        && (d.HasRipgrep() <==> Available(env, "rg")) && (d.HasFd() <==> Available(env, "fd"))
        && d.ripgrepPath == CheckTool(env, "rg") && d.fdPath == CheckTool(env, "fd")
    {
      if instance == null {
        instance := new ToolDetector();
      }
      d := instance;
      d.Init(env);
    }
  }

  /**
   * A second construction, even under different answers from the system,
   * returns the first detector with the first answers.
   */
  method ConstructTwice(env1: ToolEnv, env2: ToolEnv) returns (first: ToolDetector, second: ToolDetector)
    ensures first == second
    ensures second.initialized
    ensures second.ripgrepPath == CheckTool(env1, "rg") && second.fdPath == CheckTool(env1, "fd")
  {
    var registry := new Registry();
    first := registry.Construct(env1);
    second := registry.Construct(env2);
  }

  /**
   * fd's answer never depends on ripgrep's: two systems that answer alike
   * for "fd" detect fd alike, whatever they answer for "rg".
   */
  lemma DetectedIndependently(env1: ToolEnv, env2: ToolEnv)
    requires env1.which("fd") == env2.which("fd") && env1.probe("fd") == env2.probe("fd")
    ensures CheckTool(env1, "fd") == CheckTool(env2, "fd")
  {
  }
}
