/** Parts of the actor-system configuration: the renderer that
    `add_error_category<T>` builds from a category name and `to_string`,
    and the appenders for module factories, hook factories and thread
    hooks. Factories and hooks are identified by number. */
module SpawnerConfig {

  /** The renderer built by `add_error_category<T>(category, name)`:
      "name: to_string(code)" followed by " (ctx)" when the context is not
      empty. `toString` is `to_string` for `T`. */
  function RenderError(categoryName: string, toString: nat -> string, code: nat, ctx: string): (r: string)
    requires code < 256
    ensures |r| >= |categoryName| + 2
    ensures r[..|categoryName| + 2] == categoryName + ": "
    ensures ctx == "" ==> r == categoryName + ": " + toString(code)
    ensures ctx != "" ==> r == categoryName + ": " + toString(code) + " (" + ctx + ")"
  {
    var head := categoryName + ": " + toString(code);
    assert head[..|categoryName| + 2] == categoryName + ": ";
    if ctx == "" then head else
      var r := head + " (" + ctx + ")";
      assert r[..|categoryName| + 2] == head[..|categoryName| + 2];
      r
  }

  /** The context is recoverable from the rendered text: a non-empty one
      sits between " (" and the closing ")", and an empty one adds nothing,
      so two renderings of the same code differ iff their contexts do. */
  lemma RenderedContextRecoverable(categoryName: string, toString: nat -> string, code: nat, ctx1: string, ctx2: string)
    requires code < 256
    ensures var head := categoryName + ": " + toString(code);
      var r := RenderError(categoryName, toString, code, ctx1);
      && (ctx1 != "" ==> |r| == |head| + |ctx1| + 3 && r[|head| + 2..|r| - 1] == ctx1 && r[|r| - 1] == ')')
      && (ctx1 == "" ==> |r| == |head|)
    ensures RenderError(categoryName, toString, code, ctx1) == RenderError(categoryName, toString, code, ctx2) <==> ctx1 == ctx2
  {
    var head := categoryName + ": " + toString(code);
    var r1 := RenderError(categoryName, toString, code, ctx1);
    var r2 := RenderError(categoryName, toString, code, ctx2);
    if ctx1 != "" {
      assert r1[|head| + 2..|r1| - 1] == ctx1;
    }
    if ctx2 != "" {
      assert r2[|head| + 2..|r2| - 1] == ctx2;
    }
  }

  type Factory = nat

  /** A hook factory: a user-supplied one, or the one `add_hook_type<Hook>`
      builds, which constructs a `Hook`. */
  datatype HookFactory = UserFactory(f: Factory) | MakesHook(hookType: nat)

  /** A thread hook constructed from its type and constructor arguments. */
  datatype ThreadHook = ThreadHook(hookType: nat, args: seq<nat>)

  /** A module factory for module type `T` with template parameters `Ts`. */
  datatype ModuleFactory = ModuleFactory(moduleType: nat, params: seq<nat>)

  datatype Config = Config(moduleFactories: seq<ModuleFactory>, hookFactories: seq<HookFactory>, threadHooks: seq<ThreadHook>)

  /** `load<T, Ts...>()`. */
  function Load(c: Config, t: nat, ts: seq<nat>): (r: Config)
    ensures r.moduleFactories == c.moduleFactories + [ModuleFactory(t, ts)]
    ensures r.hookFactories == c.hookFactories && r.threadHooks == c.threadHooks
  {
    c.(moduleFactories := c.moduleFactories + [ModuleFactory(t, ts)])
  }

  /** `add_hook_factory(f)`. */
  function AddHookFactory(c: Config, f: HookFactory): (r: Config)
    ensures r.hookFactories == c.hookFactories + [f]
    ensures r.moduleFactories == c.moduleFactories && r.threadHooks == c.threadHooks
  {
    c.(hookFactories := c.hookFactories + [f])
  }

  /** `add_hook_type<Hook>()`: one factory that constructs a `Hook`, added
      through `add_hook_factory`. */
  function AddHookType(c: Config, hook: nat): (r: Config)
    ensures r == AddHookFactory(c, MakesHook(hook))
    ensures |r.hookFactories| == |c.hookFactories| + 1
  {
    AddHookFactory(c, MakesHook(hook))
  }

  /** `add_thread_hook<Hook>(ts...)`. */
  function AddThreadHook(c: Config, hook: nat, args: seq<nat>): (r: Config)
    ensures r.threadHooks == c.threadHooks + [ThreadHook(hook, args)]
    ensures r.moduleFactories == c.moduleFactories && r.hookFactories == c.hookFactories
  {
    c.(threadHooks := c.threadHooks + [ThreadHook(hook, args)])
  }

  /** A configuration call, for chaining. */
  datatype Call = LoadModule(t: nat, ts: seq<nat>) | HookFactoryCall(f: HookFactory) | HookType(hook: nat) | ThreadHookCall(hook: nat, args: seq<nat>)

  function Apply(c: Config, x: Call): Config {
    match x
    case LoadModule(t, ts) => Load(c, t, ts)
    case HookFactoryCall(f) => AddHookFactory(c, f)
    case HookType(h) => AddHookType(c, h)
    case ThreadHookCall(h, args) => AddThreadHook(c, h, args)
  }

  /** The chained calls `cfg.x0().x1()...`, applied in order. */
  function ApplyAll(c: Config, xs: seq<Call>): Config
    decreases |xs|
  {
    if |xs| == 0 then c else ApplyAll(Apply(c, xs[0]), xs[1..])
  }

  function ModulesOf(xs: seq<Call>): seq<ModuleFactory> {
    if |xs| == 0 then []
    else (if xs[0].LoadModule? then [ModuleFactory(xs[0].t, xs[0].ts)] else []) + ModulesOf(xs[1..])
  }

  function HooksOf(xs: seq<Call>): seq<HookFactory> {
    if |xs| == 0 then []
    else (match xs[0]
          case HookFactoryCall(f) => [f]
          case HookType(h) => [MakesHook(h)]
          case _ => []) + HooksOf(xs[1..])
  }

  function ThreadHooksOf(xs: seq<Call>): seq<ThreadHook> {
    if |xs| == 0 then []
    else (if xs[0].ThreadHookCall? then [ThreadHook(xs[0].hook, xs[0].args)] else []) + ThreadHooksOf(xs[1..])
  }

  /** Each vector receives exactly its own calls' entries, in call order,
      whatever the interleaving with calls to the other vectors. */
  lemma {:induction false} ChainedCallsAppendInOrder(c: Config, xs: seq<Call>)
    ensures ApplyAll(c, xs) == Config(c.moduleFactories + ModulesOf(xs),
                                      c.hookFactories + HooksOf(xs),
                                      c.threadHooks + ThreadHooksOf(xs))
    decreases |xs|
  {
    if |xs| > 0 {
      ChainedCallsAppendInOrder(Apply(c, xs[0]), xs[1..]);
    }
  }
}
