/** The values that travel between a caller, a server and a state store. */
module Requests {
  import opened Paths

  datatype Option<+T> = None | Some(value: T)

  /** An extra file of an Instance; the name is given relative to the instance directory. */
  datatype File = File(name: string, directory: string, contents: string)

  /** The caller's idea of the current Instance, sent to guard against a stale read. */
  datatype OldInstance = OldInstance(name: string, yaml: string)

  /** One replica of the server with its instances directory and its two tool switches. */
  datatype Server = Server(id: nat, dir: Path, kubectl: bool, kustomize: bool)

  datatype Kind = Apply | Delete

  datatype Request = Request(
    kind: Kind,
    server: Server,
    name: string,
    yaml: string,
    oldInstance: Option<OldInstance>,
    files: seq<File>)
  {
    /** An Apply builds or pipes to kubectl when either switch is on, a Delete only pipes to kubectl. */
    predicate RunsTool() {
      server.kubectl || (kind.Apply? && server.kustomize)
    }

    /** The instance directory. */
    function Dir(): Path {
      FilePath(server.dir, name)
    }
  }

  /** The old instance, if there is one, has the request's name. */
  predicate NamesAgree(r: Request) {
    r.oldInstance.None? || r.oldInstance.value.name == r.name
  }

  const KUSTOMIZATION_FILE_NAME := "kustomization.yaml"

  function ManifestPath(dir: Path): Path {
    dir + [KUSTOMIZATION_FILE_NAME]
  }

  /** What is on disk once the manifest and the first k files are written, by resolved path; a later write wins. */
  function Writes(dir: Path, yaml: string, files: seq<File>, k: nat): (w: map<Path, string>)
    requires k <= |files|
    ensures ManifestPath(dir) in w
  {
    if k == 0 then map[ManifestPath(dir) := yaml]
    else Writes(dir, yaml, files, k - 1)[FilePath(dir, files[k - 1].name) := files[k - 1].contents]
  }

  /** The manifest on disk by then; a file's name may resolve to it. */
  function DiskYaml(dir: Path, yaml: string, files: seq<File>, k: nat): string
    requires k <= |files|
  {
    Writes(dir, yaml, files, k)[ManifestPath(dir)]
  }

  /** The k-th file is the last one of the first n that is written to its path. */
  predicate LastAtPath(dir: Path, files: seq<File>, n: nat, k: nat) {
    k < n <= |files| && forall j :: k < j < n ==> FilePath(dir, files[j].name) != FilePath(dir, files[k].name)
  }

  lemma {:induction false} LastAtPathWritten(dir: Path, yaml: string, files: seq<File>, n: nat, k: nat)
    requires LastAtPath(dir, files, n, k)
    ensures FilePath(dir, files[k].name) in Writes(dir, yaml, files, n)
    ensures Writes(dir, yaml, files, n)[FilePath(dir, files[k].name)] == files[k].contents
  {
    if k < n - 1 {
      LastAtPathWritten(dir, yaml, files, n - 1, k);
    }
  }

  lemma {:induction false} WrittenByLast(dir: Path, yaml: string, files: seq<File>, n: nat, p: Path) returns (k: nat)
    requires n <= |files| && p in Writes(dir, yaml, files, n)
    ensures k == n ==> p == ManifestPath(dir) && Writes(dir, yaml, files, n)[p] == yaml
                       && forall j :: 0 <= j < n ==> FilePath(dir, files[j].name) != p
    ensures k != n ==> LastAtPath(dir, files, n, k) && FilePath(dir, files[k].name) == p
  {
    if n == 0 {
      k := 0;
    } else if FilePath(dir, files[n - 1].name) == p {
      k := n - 1;
    } else {
      k := WrittenByLast(dir, yaml, files, n - 1, p);
      if k == n - 1 {
        k := n;
      }
    }
  }
}
