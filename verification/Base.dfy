/** Values shared by the client and the server: directory entries, file-system
    trees keyed by relative path, and the messages of the protocol. */
module Base {
  type Path = string
  type Time = string
  type Bytes = seq<bv8>
  type Hash = seq<bv8>

  /** The digest (SHA-256 in the program) is a parameter of everything below. */
  type Digest = Bytes -> Hash

  datatype Option<+T> = None | Some(value: T)

  /** The hash a directory carries: a freshly constructed, zeroed digest. */
  const ZERO_HASH: Hash := [0, 0, 0, 0, 0, 0, 0, 0, 0, 0, 0, 0, 0, 0, 0, 0,
                            0, 0, 0, 0, 0, 0, 0, 0, 0, 0, 0, 0, 0, 0, 0, 0]

  datatype Kind = Regular | Directory | Unsupported

  /** A Directory_entry without its paths. */
  datatype Entry = Entry(kind: Kind, size: nat, time: Time, hash: Hash)

  /** What a path of a file system holds. */
  datatype Node = File(data: Bytes, time: Time) | Folder(time: Time) | Special(time: Time)

  /** A folder and everything in it, by path relative to its root. */
  type Tree = map<Path, Node>

  type Catalogue = map<Path, Entry>

  /** The entry the program builds by looking at a file-system element. */
  function EntryOf(sha: Digest, n: Node): Entry {
    match n
    case File(data, time) => Entry(Regular, |data|, time, sha(data))
    case Folder(time) => Entry(Directory, 0, time, ZERO_HASH)
    case Special(time) => Entry(Unsupported, 0, time, ZERO_HASH)
  }

  /** No two of the contents in play have the same hash. */
  ghost predicate InjectiveOn(sha: Digest, contents: iset<Bytes>) {
    forall a, b :: a in contents && b in contents && sha(a) == sha(b) ==> a == b
  }

  function ContentsOf(folder: Tree): iset<Bytes> {
    iset p | p in folder && folder[p].File? :: folder[p].data
  }

  function WithTime(n: Node, t: Time): Node {
    match n
    case File(data, _) => File(data, t)
    case Folder(_) => Folder(t)
    case Special(_) => Special(t)
  }

  function Get<K, V>(m: map<K, V>, k: K): Option<V> {
    if k in m then Some(m[k]) else None
  }

  // ---------------------------------------------------------------- paths

  /** `a` is a directory that path `p` goes through: "/d" for "/d/f", but not for "/de". */
  predicate Ancestor(a: Path, p: Path) {
    0 < |a| < |p| && p[..|a|] == a && p[|a|] == '/'
  }

  function LastSlash(p: Path): (i: int)
    ensures -1 <= i < |p|
    ensures i >= 0 ==> p[i] == '/'
    ensures forall j :: i < j < |p| ==> p[j] != '/'
  {
    if p == "" then -1
    else if p[|p| - 1] == '/' then |p| - 1
    else LastSlash(p[..|p| - 1])
  }

  /** std::filesystem::path::parent_path, relative to the user's root, which is "". */
  function Parent(p: Path): Path {
    var i := LastSlash(p);
    if i <= 0 then "" else p[..i]
  }

  function AncestorsOf(p: Path): (s: set<Path>)
    ensures forall a :: a in s <==> Ancestor(a, p)
  {
    var s := set i | 0 < i < |p| && p[i] == '/' :: p[..i];
    assert forall a | Ancestor(a, p) :: p[..|a|] in s;
    s
  }

  lemma AncestorTransitive(a: Path, b: Path, c: Path)
    requires Ancestor(a, b) && Ancestor(b, c)
    ensures Ancestor(a, c)
  {
    assert c[..|a|] == c[..|b|][..|a|];
    assert c[|a|] == c[..|b|][|a|];
  }

  /** Two ancestors of one path are comparable. */
  lemma AncestorsAreChained(a: Path, b: Path, c: Path)
    requires Ancestor(a, c) && Ancestor(b, c) && |a| <= |b|
    ensures a == b || Ancestor(a, b)
  {
    assert c[..|a|] == c[..|b|][..|a|];
    if |a| < |b| {
      assert c[..|b|][|a|] == c[|a|];
    }
  }

  /** The parent is the nearest ancestor, so it is missing whenever any ancestor is. */
  lemma ParentIsNearest(a: Path, p: Path)
    requires Ancestor(a, p)
    ensures Ancestor(Parent(p), p) && (a == Parent(p) || Ancestor(a, Parent(p)))
  {
    var i := LastSlash(p);
    assert p[|a|] == '/' && i >= |a|;
    AncestorsAreChained(a, p[..i], p);
  }

  /** A real folder: everything a path goes through is a directory of the tree. */
  ghost predicate Closed(d: Tree) {
    forall p, a :: p in d && Ancestor(a, p) ==> a in d && d[a].Folder?
  }

  // ------------------------------------------------------------- messages

  datatype OkCode = Found | Created | NotThere | Removed | Authenticated | Retrieved

  datatype ErrCode = NotAFile | Unexpected | StoreFailed | RemoveFailed | NotADir | AuthFailed | Exception | RetrieveFailed

  /** One server answer (ServerMessage of the types OK, SEND and ERR). */
  datatype Response = Ok(code: OkCode) | Send(path: Path, hash: Hash) | Err(error: ErrCode)

  /** One client command. STOR carries the content of the DATA run that follows it on the wire. */
  datatype Command =
    | Prob(path: Path, time: Time, hash: Hash)
    | Stor(path: Path, size: nat, time: Time, hash: Hash, data: Bytes)
    | Dele(path: Path, hash: Hash)
    | Mkd(path: Path, time: Time)
    | Rmd(path: Path)
}
