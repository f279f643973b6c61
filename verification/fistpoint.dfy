/**
  lib/fistpoint.py: a fistpoint is a flag file under /tmp on a host that the storage
  manager looks for.  Enabling it creates the empty file, disabling it removes the
  file (and fails, as `rm` does, when the file is missing).
*/
module FistPoints {
  import opened Wrappers
  import opened ManagementPlane

  const FistpointDir: string := "/tmp"
  const LvhdrtExitFist: string := "fist_LVHDRT_exit"
  const NamePrefix: string := "fist_"

  predicate StartsWithPrefix(name: string)
  {
    |name| >= |NamePrefix| && name[..|NamePrefix|] == NamePrefix
  }

  /** `_get_name`: "fist_" is prepended exactly when the name does not already start with it. */
  function GetName(name: string): (r: string)
    ensures StartsWithPrefix(r)
    ensures StartsWithPrefix(name) ==> r == name
    ensures !StartsWithPrefix(name) ==> r == NamePrefix + name
  {
    if StartsWithPrefix(name) then name else NamePrefix + name
  }

  /** Naming a fistpoint twice changes nothing. */
  lemma GetNameIdempotent(name: string)
    ensures GetName(GetName(name)) == GetName(name)
  {
  }

  /** FistPoint(h, "x") and FistPoint(h, "fist_x") name the same fistpoint. */
  lemma {:induction false} PrefixedNameSame(name: string)
    ensures !StartsWithPrefix(name) ==> GetName(NamePrefix + name) == GetName(name)
  {
    assert (NamePrefix + name)[..|NamePrefix|] == NamePrefix;
  }

  /** `_get_path`: the file `name` in the fistpoint directory. */
  function GetPath(name: string): (r: string)
    ensures |r| == |FistpointDir| + 1 + |name|
    ensures r[..|FistpointDir|] == FistpointDir && r[|FistpointDir|] == '/' && r[|FistpointDir| + 1..] == name
  {
    FistpointDir + "/" + name
  }

  /** Different fistpoint names give different files. */
  lemma GetPathInjective(a: string, b: string)
    requires GetPath(a) == GetPath(b)
    ensures a == b
  {
    assert a == GetPath(a)[|FistpointDir| + 1..];
  }

  /** The path the exit-on-fistpoint helpers create and remove. */
  lemma ExitFistPath()
    ensures GetPath(LvhdrtExitFist) == "/tmp/fist_LVHDRT_exit"
  {
    assert FistpointDir + "/" + LvhdrtExitFist == "/tmp/fist_LVHDRT_exit";
  }

  /** `host` has a file at `path`. */
  predicate HasFile(w: World, host: string, path: string)
  {
    host in w.files && path in w.files[host]
  }

  /** `host.create_file(path, "")`: one file command; on success the file exists and is empty. */
  method CreateEmptyFile(plane: Plane, host: string, path: string) returns (r: Result<()>)
    requires Valid(plane.world)
    modifies plane
    ensures Valid(plane.world)
    ensures plane.log == old(plane.log) + [CreateFile(host, path, "")]
    ensures r.Ok? <==> |old(plane.log)| !in plane.faults
    ensures r.Ok? ==> HasFile(plane.world, host, path) && plane.world.files[host][path] == ""
    ensures r.Ok? ==> forall h, p :: h != host || p != path ==> (HasFile(plane.world, h, p) <==> HasFile(old(plane.world), h, p))
    ensures r.Err? ==> plane.world == old(plane.world)
  {
    r := plane.WriteFile(host, path, "");
  }

  /** `host.ssh(["rm", path])`: fails when the file is missing; on success the file is gone. */
  method RemoveFileAt(plane: Plane, host: string, path: string) returns (r: Result<()>)
    requires Valid(plane.world)
    modifies plane
    ensures Valid(plane.world)
    ensures plane.log == old(plane.log) + [RemoveFile(host, path)]
    ensures r.Ok? <==> |old(plane.log)| !in plane.faults && HasFile(old(plane.world), host, path)
    ensures r.Ok? ==> !HasFile(plane.world, host, path)
    ensures r.Ok? ==> forall h, p :: h != host || p != path ==> (HasFile(plane.world, h, p) <==> HasFile(old(plane.world), h, p))
    ensures r.Err? ==> plane.world == old(plane.world)
  {
    r := plane.DeleteFile(host, path);
  }

  /** `enable_exit_on_fistpoint`: makes every fistpoint raise instead of sleeping. */
  method EnableExitOnFistpoint(plane: Plane, host: string) returns (r: Result<()>)
    requires Valid(plane.world)
    modifies plane
    ensures Valid(plane.world)
    ensures plane.log == old(plane.log) + [CreateFile(host, "/tmp/fist_LVHDRT_exit", "")]
    ensures r.Ok? <==> |old(plane.log)| !in plane.faults
    ensures r.Ok? ==> HasFile(plane.world, host, "/tmp/fist_LVHDRT_exit") && plane.world.files[host]["/tmp/fist_LVHDRT_exit"] == ""
    ensures r.Ok? ==> forall h, p :: h != host || p != "/tmp/fist_LVHDRT_exit" ==>
                        (HasFile(plane.world, h, p) <==> HasFile(old(plane.world), h, p))
    ensures r.Err? ==> plane.world == old(plane.world)
  {
    ExitFistPath();
    r := CreateEmptyFile(plane, host, GetPath(LvhdrtExitFist));
  }

  /** `disable_exit_on_fistpoint`. */
  method DisableExitOnFistpoint(plane: Plane, host: string) returns (r: Result<()>)
    requires Valid(plane.world)
    modifies plane
    ensures Valid(plane.world)
    ensures plane.log == old(plane.log) + [RemoveFile(host, "/tmp/fist_LVHDRT_exit")]
    ensures r.Ok? <==> |old(plane.log)| !in plane.faults && HasFile(old(plane.world), host, "/tmp/fist_LVHDRT_exit")
    ensures r.Ok? ==> !HasFile(plane.world, host, "/tmp/fist_LVHDRT_exit")
    ensures r.Ok? ==> forall h, p :: h != host || p != "/tmp/fist_LVHDRT_exit" ==>
                        (HasFile(plane.world, h, p) <==> HasFile(old(plane.world), h, p))
    ensures r.Err? ==> plane.world == old(plane.world)
  {
    ExitFistPath();
    r := RemoveFileAt(plane, host, GetPath(LvhdrtExitFist));
  }

  class FistPoint {
    const host: string
    const name: string

    constructor (host: string, name: string)
      ensures this.host == host && this.name == GetName(name)
    {
      this.host := host;
      this.name := GetName(name);
    }

    function Path(): (p: string)
    {
      GetPath(name)
    }

    /** `enable`: create the empty flag file. */
    method Enable(plane: Plane) returns (r: Result<()>)
      requires Valid(plane.world)
      modifies plane
      ensures Valid(plane.world)
      ensures plane.log == old(plane.log) + [CreateFile(host, Path(), "")]
      ensures r.Ok? <==> |old(plane.log)| !in plane.faults
      ensures r.Ok? ==> HasFile(plane.world, host, Path()) && plane.world.files[host][Path()] == ""
      ensures r.Ok? ==> forall h, p :: h != host || p != Path() ==> (HasFile(plane.world, h, p) <==> HasFile(old(plane.world), h, p))
      ensures r.Err? ==> plane.world == old(plane.world)
    {
      r := CreateEmptyFile(plane, host, Path());
    }

    /** `disable`: remove the flag file. */
    method Disable(plane: Plane) returns (r: Result<()>)
      requires Valid(plane.world)
      modifies plane
      ensures Valid(plane.world)
      ensures plane.log == old(plane.log) + [RemoveFile(host, Path())]
      ensures r.Ok? <==> |old(plane.log)| !in plane.faults && HasFile(old(plane.world), host, Path())
      ensures r.Ok? ==> !HasFile(plane.world, host, Path())
      ensures r.Ok? ==> forall h, p :: h != host || p != Path() ==> (HasFile(plane.world, h, p) <==> HasFile(old(plane.world), h, p))
      ensures r.Err? ==> plane.world == old(plane.world)
    {
      r := RemoveFileAt(plane, host, Path());
    }

    /**
      A `with FistPoint(...)` block whose body ends with `body` and changes no
      files: `__enter__` enables; if that succeeds the body runs and `__exit__`
      disables whether the body returned or raised.  An exception from `__exit__`
      replaces the body's outcome.
    */
    method With(plane: Plane, body: Result<()>) returns (r: Result<()>)
      requires Valid(plane.world)
      modifies plane
      ensures Valid(plane.world)
      ensures |plane.log| == |old(plane.log)| + 1 ==> r.Err? && plane.world == old(plane.world)
      ensures |old(plane.log)| in plane.faults ==> plane.log == old(plane.log) + [CreateFile(host, Path(), "")]
      ensures |old(plane.log)| !in plane.faults ==>
                plane.log == old(plane.log) + [CreateFile(host, Path(), ""), RemoveFile(host, Path())]
      ensures |old(plane.log)| !in plane.faults && |old(plane.log)| + 1 !in plane.faults ==>
                r == body && !HasFile(plane.world, host, Path())
                && forall h, p :: h != host || p != Path() ==> (HasFile(plane.world, h, p) <==> HasFile(old(plane.world), h, p))
      ensures |old(plane.log)| !in plane.faults && |old(plane.log)| + 1 in plane.faults ==>
                r.Err? && HasFile(plane.world, host, Path())
    {
      r := Enable(plane);
      if r.Err? {
        return;
      }
      var exit := Disable(plane);
      r := if exit.Err? then exit else body;
    }
  }
}
