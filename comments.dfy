/** Comment records as the extraction tool emits them, and their
    classification into forks (`get_fork`). */
module Comments {

  datatype Option<+T> = None | Some(value: T)

  /** A comment record. Only its `commands` field matters here: it is
      either absent or a list of strings. Every other field travels
      through the conversion untouched and is kept as `payload`. */
  datatype Comment<P> = Comment(commands: Option<seq<string>>, payload: P)

  /** The distribution channel of a comment. The constructors are listed
      in the order of their tags as strings. */
  datatype Fork = Easy | Main | Owner {

    /** The tag written to the output document. */
    function Name(): string {
      match this
      case Easy => "easy"
      case Main => "main"
      case Owner => "owner"
    }

    /** The position of the tag among the three tags in string order. */
    function Rank(): nat {
      match this
      case Easy => 0
      case Main => 1
      case Owner => 2
    }
  }

  /** The `commands` list of a comment; an absent field reads as empty. */
  function Commands<P>(c: Comment<P>): seq<string> {
    match c.commands
    case None => []
    case Some(cs) => cs
  }

  /** The fork of a comment: an empty command list marks an owner comment,
      otherwise the anonymity command "184" marks a main comment, and every
      other comment is an easy comment. */
  function GetFork<P>(c: Comment<P>): Fork {
    var commands := Commands(c);
    if |commands| == 0 then Owner
    else if "184" in commands then Main
    else Easy
  }

  /** Each fork in terms of the command list: the three cases are
      exclusive and cover every comment. */
  lemma GetForkCases<P>(c: Comment<P>)
    ensures GetFork(c) == Owner <==> |Commands(c)| == 0
    ensures GetFork(c) == Main <==> |Commands(c)| > 0 && "184" in Commands(c)
    ensures GetFork(c) == Easy <==> |Commands(c)| > 0 && "184" !in Commands(c)
  {
  }

  /** A record without a `commands` field is an owner comment. */
  lemma MissingCommandsIsOwner<P>(payload: P)
    ensures GetFork(Comment(None, payload)) == Owner
  {
  }

  /** The tag of a comment is one of the three tags, and distinct forks
      have distinct tags. */
  lemma ForkTags<P>(c: Comment<P>, f: Fork, g: Fork)
    ensures GetFork(c).Name() in {"owner", "main", "easy"}
    ensures f.Name() == g.Name() ==> f == g
  {
  }

  /** Python's `<` on str: lexicographic order by code point, a proper
      prefix coming first. */
  predicate StrLess(a: string, b: string) {
    if b == [] then false
    else if a == [] then true
    else if a[0] != b[0] then a[0] < b[0]
    else StrLess(a[1..], b[1..])
  }

  /** Comparing ranks is comparing the tags as strings, which is what
      sorting by `get_fork` does. */
  lemma RankFollowsNameOrder(f: Fork, g: Fork)
    ensures f.Rank() < g.Rank() <==> StrLess(f.Name(), g.Name())
    ensures f.Rank() == g.Rank() <==> f == g
  {
    if f == g {
      StrLessIrreflexive(f.Name());
    } else {
      assert f.Name()[0] != g.Name()[0];
    }
  }

  lemma {:induction false} StrLessIrreflexive(s: string)
    ensures !StrLess(s, s)
  {
    if s != [] {
      StrLessIrreflexive(s[1..]);
    }
  }
}
