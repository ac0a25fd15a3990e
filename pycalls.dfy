// Python's binding of positional arguments to a function's parameters,
// reduced to what the soil classes need: a call with the wrong number of
// positional arguments (and no defaults) raises TypeError before the
// function body runs.
module PyCalls {
  import opened Wrappers
  import opened Strings

  /** `'name'`. */
  function Quote(name: string): string
  {
    "'" + name + "'"
  }

  /** `'a', 'b', ` ... : every name quoted and followed by a comma and a space. */
  function Listed(names: seq<string>): string
  {
    if |names| == 0 then "" else Quote(names[0]) + ", " + Listed(names[1..])
  }

  /** How Python lists missing parameters: `'a'`, `'a' and 'b'`, `'a', 'b', and 'c'`. */
  function QuotedNames(names: seq<string>): string
  {
    if |names| == 0 then ""
    else if |names| == 1 then Quote(names[0])
    else if |names| == 2 then Quote(names[0]) + " and " + Quote(names[1])
    else Listed(names[..|names| - 1]) + "and " + Quote(names[|names| - 1])
  }

  /** `argument` or `arguments`. */
  function Arguments(k: nat): string
  {
    if k == 1 then "argument" else "arguments"
  }

  /**
   * Calling `name` (a function whose parameters `params`, `self` included,
   * have no defaults) with `given` positional arguments, `self` included:
   * too few names the missing trailing parameters, too many counts both.
   */
  function Bind(name: string, params: seq<string>, given: nat): (r: Result<()>)
    ensures r.Ok? <==> given == |params|
    ensures r.Err? ==> r.error.TypeError? && |name| < |r.error.msg| && r.error.msg[..|name|] == name
  {
    if given < |params| then
      Err(TypeError(Missing(name, params[given..])))
    else if given > |params| then Err(TypeError(TooMany(name, |params|, given)))
    else Ok(())
  }

  /** The message of a call with `given` positional arguments to a function taking `k`. */
  function TooMany(name: string, k: nat, given: nat): (m: string)
    ensures |name| < |m| && m[..|name|] == name
  {
    name + "() takes " + NatToString(k) + " positional " + Arguments(k) + " but " + NatToString(given) + " were given"
  }

  /** The message of a call that leaves out the parameters `names`: `f() missing 1 required positional argument: 'x'`. */
  function Missing(name: string, names: seq<string>): (m: string)
    ensures |name| < |m| && m[..|name|] == name
  {
    name + "() missing " + NatToString(|names|) + " required positional " + Arguments(|names|) + ": " + QuotedNames(names)
  }

  /** A call one argument short names exactly the last parameter. */
  lemma OneShort(name: string, params: seq<string>)
    requires |params| >= 1
    ensures Bind(name, params, |params| - 1) == Err(TypeError(Missing(name, [params[|params| - 1]])))
  {
    assert params[|params| - 1..] == [params[|params| - 1]];
  }
}
