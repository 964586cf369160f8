/** `convert_comments`: the flat comment list regrouped into the nested
    document the comment viewer reads, one thread per fork. */
module Convert {
  import opened Comments
  import opened ForkSort
  import opened Grouping

  /** The thread id every thread and the global comment summary carry. */
  const ThreadId: string := "1693580826"

  /** The status the document's `meta` object reports. */
  const Status: int := 200

  /** One thread: the comments of one fork, their number, the fork's tag
      and the thread id. */
  datatype Thread<P> = Thread(commentCount: nat, comments: seq<Comment<P>>, fork: Fork, id: string)

  /** The single entry of `globalComments`. */
  datatype GlobalComment = GlobalComment(count: nat, id: string)

  datatype Data<P> = Data(globalComments: seq<GlobalComment>, threads: seq<Thread<P>>)

  datatype Meta = Meta(status: int)

  /** The whole output document: `data` and `meta`. */
  datatype Document<P> = Document(data: Data<P>, meta: Meta)

  /** The thread made of one group: its members verbatim, counted. */
  function MakeThread<P>(g: Group<Comment<P>>, id: string): Thread<P> {
    Thread(|g.members|, g.members, g.fork, id)
  }

  /** One thread per group, in the order of the groups. */
  function Threads<P>(groups: seq<Group<Comment<P>>>, id: string): seq<Thread<P>> {
    seq(|groups|, i requires 0 <= i < |groups| => MakeThread(groups[i], id))
  }

  /** The comments of all threads, one thread after the other. */
  function AllComments<P>(threads: seq<Thread<P>>): seq<Comment<P>> {
    if threads == [] then [] else threads[0].comments + AllComments(threads[1..])
  }

  /** The document `convert_comments` returns: the threads of the runs of
      the comments stably sorted by fork, and the number of main comments
      counted over the input as it was given. */
  function Regroup<P>(comments: seq<Comment<P>>): Document<P> {
    var threads := Threads(GroupBy(StableSort(comments, GetFork), GetFork), ThreadId);
    var mainCount := |Filter(comments, GetFork, Main)|;
    Document(Data([GlobalComment(mainCount, ThreadId)], threads), Meta(Status))
  }

  /** The loop over the groups: appends one thread per group. */
  method BuildThreads<P>(grouped: seq<Group<Comment<P>>>, threadId: string) returns (threads: seq<Thread<P>>)
    ensures |threads| == |grouped|
    ensures forall i :: 0 <= i < |threads| ==>
      threads[i].comments == grouped[i].members && threads[i].commentCount == |grouped[i].members|
      && threads[i].fork == grouped[i].fork && threads[i].id == threadId
  {
    threads := [];
    for i := 0 to |grouped|
      invariant |threads| == i
      invariant forall j :: 0 <= j < i ==> threads[j] == MakeThread(grouped[j], threadId)
    {
      var commentList := grouped[i].members;
      var thread := Thread(|commentList|, commentList, grouped[i].fork, threadId);
      threads := threads + [thread];
    }
  }

  /** The conversion step by step: sort, group, build the threads, count
      the main comments, assemble the document. */
  method ConvertComments<P>(comments: seq<Comment<P>>) returns (output: Document<P>)
    ensures output == Regroup(comments)
  {
    var threadId := ThreadId;
    var sortedComments := StableSort(comments, GetFork);
    var grouped := GroupBy(sortedComments, GetFork);
    var threads := BuildThreads(grouped, threadId);
    var mainComments := Filter(comments, GetFork, Main);
    var globalCommentCount := |mainComments|;
    output := Document(Data([GlobalComment(globalCommentCount, threadId)], threads), Meta(Status));
  }

  lemma {:induction false} AllCommentsOfThreads<P>(groups: seq<Group<Comment<P>>>, id: string)
    ensures AllComments(Threads(groups, id)) == Concat(groups)
  {
    if groups != [] {
      assert Threads(groups, id)[1..] == Threads(groups[1..], id);
      AllCommentsOfThreads(groups[1..], id);
    }
  }

  /** The threads are those of the reference groups: one thread per fork
      that occurs in the input, in rank order. */
  lemma RegroupIsForkThreads<P>(comments: seq<Comment<P>>)
    ensures Regroup(comments).data.threads == Threads(ForkGroups(comments, GetFork), ThreadId)
  {
    GroupBySortedIsForkGroups(comments, GetFork);
  }

  /** Every thread holds exactly the input comments of its fork, in input
      order; it is non-empty, its count is its length, and its id is the
      thread id. */
  lemma RegroupThreadContents<P>(comments: seq<Comment<P>>)
    ensures var threads := Regroup(comments).data.threads;
      forall i :: 0 <= i < |threads| ==>
        && threads[i].comments == Filter(comments, GetFork, threads[i].fork)
        && threads[i].comments != []
        && threads[i].commentCount == |threads[i].comments|
        && threads[i].id == ThreadId
        && (forall j :: 0 <= j < |threads[i].comments| ==> GetFork(threads[i].comments[j]) == threads[i].fork)
  {
    RegroupIsForkThreads(comments);
    ForkGroupsMembers(comments, GetFork);
  }

  /** Thread forks strictly increase, in rank and in string order of their
      tags; so no fork has two threads, there are at most three, and an
      empty input has none. */
  lemma RegroupThreadOrder<P>(comments: seq<Comment<P>>)
    ensures var threads := Regroup(comments).data.threads;
      && (forall i, j :: 0 <= i < j < |threads| ==>
            threads[i].fork.Rank() < threads[j].fork.Rank()
            && StrLess(threads[i].fork.Name(), threads[j].fork.Name()))
      && |threads| <= 3
      && (comments == [] ==> threads == [])
  {
    var threads := Regroup(comments).data.threads;
    RegroupIsForkThreads(comments);
    ForkGroupsOrder(comments, GetFork);
    forall i, j | 0 <= i < j < |threads|
      ensures StrLess(threads[i].fork.Name(), threads[j].fork.Name())
    {
      RankFollowsNameOrder(threads[i].fork, threads[j].fork);
    }
  }

  /** A fork has a thread exactly when some input comment has that fork. */
  lemma RegroupForkPresence<P>(comments: seq<Comment<P>>, k: Fork)
    ensures var threads := Regroup(comments).data.threads;
      (exists i :: 0 <= i < |threads| && threads[i].fork == k)
      <==> (exists c :: c in comments && GetFork(c) == k)
  {
    var threads := Regroup(comments).data.threads;
    var gs := ForkGroups(comments, GetFork);
    RegroupIsForkThreads(comments);
    assert |threads| == |gs| && forall i :: 0 <= i < |threads| ==> threads[i].fork == gs[i].fork;
    ForkGroupsPresence(comments, GetFork, k);
    SomeIffFilter(comments, k);
  }

  lemma SomeIffFilter<P>(comments: seq<Comment<P>>, k: Fork)
    ensures (exists c :: c in comments && GetFork(c) == k) <==> Filter(comments, GetFork, k) != []
  {
  }

  /** Read one after the other, the threads are the stable sort of the
      input by fork, and so a permutation of the input. */
  lemma RegroupConcatenation<P>(comments: seq<Comment<P>>)
    ensures var threads := Regroup(comments).data.threads;
      && AllComments(threads) == StableSort(comments, GetFork)
      && multiset(AllComments(threads)) == multiset(comments)
  {
    var sorted := StableSort(comments, GetFork);
    AllCommentsOfThreads(GroupBy(sorted, GetFork), ThreadId);
    GroupByRuns(sorted, GetFork);
    StableSortSpec(comments, GetFork);
  }

  /** Every input comment lies in exactly one thread: the one of its fork. */
  lemma RegroupPartition<P>(comments: seq<Comment<P>>)
    ensures var threads := Regroup(comments).data.threads;
      && (forall c :: c in comments ==> exists i :: 0 <= i < |threads| && c in threads[i].comments)
      && (forall c, i, j ::
            (0 <= i < |threads| && 0 <= j < |threads| && c in threads[i].comments && c in threads[j].comments)
            ==> i == j)
  {
    var threads := Regroup(comments).data.threads;
    RegroupThreadContents(comments);
    RegroupThreadOrder(comments);
    forall c | c in comments ensures exists i :: 0 <= i < |threads| && c in threads[i].comments {
      var k := GetFork(c);
      RegroupForkPresence(comments, k);
      var i :| 0 <= i < |threads| && threads[i].fork == k;
      FilterMembership(comments, GetFork, k, c);
    }
    forall c, i, j | 0 <= i < |threads| && 0 <= j < |threads|
        && c in threads[i].comments && c in threads[j].comments
      ensures i == j
    {
      FilterMembership(comments, GetFork, threads[i].fork, c);
      FilterMembership(comments, GetFork, threads[j].fork, c);
    }
  }

  /** `globalComments` has one entry, carrying the thread id and the number
      of main comments, which is the main thread's count when there is a
      main thread and 0 otherwise; `meta.status` is 200. */
  lemma RegroupGlobalComments<P>(comments: seq<Comment<P>>)
    ensures var doc := Regroup(comments);
      && doc.meta.status == 200
      && |doc.data.globalComments| == 1
      && doc.data.globalComments[0].id == ThreadId
      && doc.data.globalComments[0].count == |Filter(comments, GetFork, Main)|
      && (forall i :: 0 <= i < |doc.data.threads| && doc.data.threads[i].fork == Main ==>
            doc.data.globalComments[0].count == doc.data.threads[i].commentCount)
      && ((forall i :: 0 <= i < |doc.data.threads| ==> doc.data.threads[i].fork != Main) ==>
            doc.data.globalComments[0].count == 0)
  {
    RegroupThreadContents(comments);
    RegroupForkPresence(comments, Main);
    var f := Filter(comments, GetFork, Main);
    if f != [] {
      FilterMembership(comments, GetFork, Main, f[0]);
      assert f[0] in f;
    }
  }

  /** An empty input gives no threads and a main count of 0. */
  lemma RegroupEmpty<P>()
    ensures Regroup<P>([]) == Document(Data([GlobalComment(0, ThreadId)], []), Meta(200))
  {
  }

  /** An input whose comments all have one fork gives a single thread
      holding all of them, in input order; the main count is their number
      when that fork is main and 0 otherwise. Two main comments, say, give
      one main thread of two comments and a main count of 2. */
  lemma SingleForkInput<P>(comments: seq<Comment<P>>, k: Fork)
    requires comments != []
    requires forall i :: 0 <= i < |comments| ==> GetFork(comments[i]) == k
    ensures Regroup(comments).data.threads == [Thread(|comments|, comments, k, ThreadId)]
    ensures Regroup(comments).data.globalComments
      == [GlobalComment(if k == Main then |comments| else 0, ThreadId)]
  {
    FilterAll(comments, GetFork, k);
    forall f | f != k ensures Filter(comments, GetFork, f) == [] {
      FilterNone(comments, GetFork, f);
    }
    assert ForkGroups(comments, GetFork) == [Group(k, comments)] by {
      match k
      case Easy =>
        assert ForkGroups(comments, GetFork) == [Group(k, comments)] + [] + [];
      case Main =>
        assert ForkGroups(comments, GetFork) == [] + [Group(k, comments)] + [];
      case Owner =>
        assert ForkGroups(comments, GetFork) == [] + [] + [Group(k, comments)];
    }
    RegroupIsForkThreads(comments);
  }
}
