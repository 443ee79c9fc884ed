/**
 * Where the Discord client listens: ten numbered socket paths under a
 * platform-dependent prefix, enumerated by `PathGenerator`.
 */
module Paths {
  import opened Text

  datatype Platform = Linux | Windows

  /** The variables consulted on Linux, in the order they are tried. */
  const TempVariables: seq<string> := ["XDG_RUNTIME_DIR", "TMPDIR", "TMP", "TEMP"]

  const FallbackDirectory: string := "/tmp"

  /** The named-pipe namespace on Windows, `\\?\pipe\`. */
  const PipeNamespace: string := "\\\\?\\pipe\\"

  const SocketName: string := "discord-ipc-"

  /** How many numbered endpoints are tried. */
  const EndpointCount: nat := 10

  /**
   * The value of the first of `names` that is set in `env`, or `fallback`.
   * A variable that is set to the empty string counts as found.
   */
  function FirstFound(env: map<string, string>, names: seq<string>, fallback: string): (r: string)
    ensures (forall i :: 0 <= i < |names| ==> names[i] !in env) ==> r == fallback
    ensures (exists i :: 0 <= i < |names| && names[i] in env)
        ==> exists i :: 0 <= i < |names| && names[i] in env && r == env[names[i]]
                        && forall j :: 0 <= j < i ==> names[j] !in env
    decreases |names|
  {
    if |names| == 0 then fallback
    else if names[0] in env then env[names[0]]
    else
      var r := FirstFound(env, names[1..], fallback);
      assert forall j :: 0 <= j < |names| - 1 ==> names[1..][j] == names[j + 1];
      r
  }

  /** The directory part of every candidate path, separator included. */
  function Prefix(platform: Platform, env: map<string, string>): (prefix: string)
    ensures platform == Windows ==> prefix == PipeNamespace
    ensures platform == Linux ==> |prefix| > 0 && prefix[|prefix| - 1] == '/'
  {
    match platform
    case Linux => FirstFound(env, TempVariables, FallbackDirectory) + "/"
    case Windows => PipeNamespace
  }

  /** The `i`-th endpoint: `<prefix>discord-ipc-<i>`. */
  function Candidate(prefix: string, i: nat): string {
    prefix + SocketName + DecimalString(i)
  }

  /** All endpoints in the order they are tried. */
  function Candidates(prefix: string): (cs: seq<string>)
    ensures |cs| == EndpointCount
    ensures forall i :: 0 <= i < EndpointCount ==> cs[i] == Candidate(prefix, i)
  {
    seq(EndpointCount, i requires 0 <= i => Candidate(prefix, i))
  }

  /** Different numbers give different endpoints under the same prefix. */
  lemma CandidatesDistinct(prefix: string, i: nat, j: nat)
    requires i != j
    ensures Candidate(prefix, i) != Candidate(prefix, j)
  {
    var head := prefix + SocketName;
    if Candidate(prefix, i) == Candidate(prefix, j) {
      assert Candidate(prefix, i) == head + DecimalString(i);
      assert Candidate(prefix, j) == head + DecimalString(j);
      assert DecimalString(i) == Candidate(prefix, i)[|head|..];
      assert DecimalString(j) == Candidate(prefix, j)[|head|..];
      DecimalStringInjective(i, j);
    }
  }

  /** The Linux directory is the first of the temporary-directory variables that is set, else `/tmp`. */
  lemma LinuxPrefixChoice(env: map<string, string>)
    ensures (forall v :: v in TempVariables ==> v !in env) ==> Prefix(Linux, env) == "/tmp/"
    ensures "XDG_RUNTIME_DIR" in env ==> Prefix(Linux, env) == env["XDG_RUNTIME_DIR"] + "/"
    ensures "XDG_RUNTIME_DIR" !in env && "TMPDIR" in env ==> Prefix(Linux, env) == env["TMPDIR"] + "/"
    ensures "XDG_RUNTIME_DIR" !in env && "TMPDIR" !in env && "TMP" in env ==> Prefix(Linux, env) == env["TMP"] + "/"
    ensures "XDG_RUNTIME_DIR" !in env && "TMPDIR" !in env && "TMP" !in env && "TEMP" in env
        ==> Prefix(Linux, env) == env["TEMP"] + "/"
  {
    var names := TempVariables;
    if forall v :: v in names ==> v !in env {
      assert forall i :: 0 <= i < |names| ==> names[i] !in env by {
        forall i | 0 <= i < |names| ensures names[i] !in env {
          assert names[i] in names;
        }
      }
    } else {
      assert exists i :: 0 <= i < |names| && names[i] in env;
    }
  }

  /** Hands out the ten candidate endpoints one at a time. */
  class PathGenerator {
    var isInitialized: bool
    var id: nat
    var path: string

    ghost predicate Valid()
      reads this
    {
      id <= EndpointCount
    }

    constructor()
      ensures Valid() && !isInitialized
    {
      isInitialized := false;
      id := 0;
      path := "";
    }

    /** Restarts the enumeration and fixes the prefix for `platform`, reading `env` on Linux. */
    method Init(platform: Platform, env: map<string, string>)
      modifies this
      ensures Valid() && isInitialized
      ensures id == 0 && path == Prefix(platform, env)
    {
      id := 0;
      match platform {
        case Linux =>
          path := FirstFound(env, TempVariables, FallbackDirectory);
          path := path + "/";
        case Windows =>
          path := PipeNamespace;
      }
      isInitialized := true;
    }

    /**
     * The next endpoint, or `false` once all ten have been handed out, in
     * which case the caller's `value` comes back untouched.
     */
    method Next(value: string) returns (ok: bool, next: string)
      requires Valid() && isInitialized
      modifies this
      ensures Valid() && isInitialized && path == old(path)
      ensures ok <==> old(id) < EndpointCount
      ensures ok ==> next == Candidate(path, old(id)) && id == old(id) + 1
      ensures !ok ==> next == value && id == old(id)
    {
      if id == EndpointCount {
        return false, value;
      }
      next := path + SocketName + DecimalString(id);
      id := id + 1;
      ok := true;
    }
  }
}
