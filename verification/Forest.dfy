/** Selected files and directories as trees. A directory is given by its entries in listing order. */
module Forest {
  datatype Node =
    | File(name: string, content: string)
    | Dir(name: string, kids: seq<Node>)
    | Symlink(name: string)

  /** A name a directory entry can have. */
  predicate PlainName(name: string) {
    && name != "" && name != "." && name != ".."
    && forall i :: 0 <= i < |name| ==> name[i] != '/' && name[i] != '\0'
  }

  predicate WellNamed(n: Node) {
    PlainName(n.name) && (n.Dir? ==> AllWellNamed(n.kids))
  }

  predicate AllWellNamed(ns: seq<Node>) {
    forall n :: n in ns ==> WellNamed(n)
  }

  /** Neither this node nor anything below it is a symbolic link. */
  predicate Transferable(n: Node) {
    !n.Symlink? && (n.Dir? ==> AllTransferable(n.kids))
  }

  predicate AllTransferable(ns: seq<Node>) {
    forall n :: n in ns ==> Transferable(n)
  }
}
