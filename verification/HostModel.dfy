/** The host that a run converges: a finite map from cells to values, where an
    absent cell means "does not exist". Effects on it are patches. */
module HostModel {

  datatype Option<+T> = None | Some(value: T)

  /** One separately readable and writable piece of the host. */
  datatype Cell =
    | FileAt(path: string)
    | DirAt(path: string)
    | Enabled(unit: string)
    | Active(unit: string)
    | Package(name: string)
    | AptIndex
    | Other(key: string)

  datatype Val =
    | FileVal(content: string, mode: nat, uid: nat, gid: nat)
    | DirVal(dirMode: nat, dirUid: nat, dirGid: nat)
    | Present
    | Data(text: string)

  type Host = map<Cell, Val>

  // The process runs as uid 0 with umask 0022: what mkdir and open(O_CREAT) produce.
  const FRESH_DIR := DirVal(0x1ed, 0, 0)
  const FRESH_FILE := FileVal("", 0x1a4, 0, 0)

  /** `put` and `del` overwrite; `make` creates a directory where nothing is there yet. */
  datatype Patch = Patch(put: map<Cell, Val>, del: set<Cell>, make: set<Cell>)

  const NOTHING := Patch(map[], {}, {})

  function Apply(h: Host, p: Patch): Host {
    (map c | c in p.make :: FRESH_DIR) + (h - p.del) + p.put
  }

  predicate Same(h1: Host, h2: Host, c: Cell) {
    (c in h1 <==> c in h2) && (c in h1 ==> h1[c] == h2[c])
  }

  ghost predicate Agree(h1: Host, h2: Host, cells: iset<Cell>) {
    forall c :: c in cells ==> Same(h1, h2, c)
  }

  lemma AgreeEverywhere(h1: Host, h2: Host)
    requires forall c :: Same(h1, h2, c)
    ensures h1 == h2
  {
    forall c ensures c in h1 <==> c in h2 { assert Same(h1, h2, c); }
    forall c | c in h1 ensures h1[c] == h2[c] { assert Same(h1, h2, c); }
  }

  lemma ApplyKeepsAgreement(h1: Host, h2: Host, p: Patch, cells: iset<Cell>)
    requires Agree(h1, h2, cells)
    ensures Agree(Apply(h1, p), Apply(h2, p), cells)
  {
    forall c | c in cells ensures Same(Apply(h1, p), Apply(h2, p), c) {
      assert Same(h1, h2, c);
    }
  }

  lemma NonemptyHasMember(s: seq<string>)
    ensures s != [] ==> exists n :: n in s
  {
    if s != [] { assert s[0] in s; }
  }
}
