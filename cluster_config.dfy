/**
 * The two halves together: a cluster file that lists the compactor queues as
 * a YAML list yields, after parseConfiguration, a queue entry that
 * outputShellVariables splits back into the same queue names.
 */
module ClusterConfig {
  import opened Wrappers
  import opened JavaText
  import opened YamlTree
  import opened Flattener
  import opened FlattenerProperties
  import opened ShellEmitter

  /** A queue name the cluster file may list: non-empty and without spaces. */
  predicate QueueName(q: string) {
    q != "" && ' ' !in q
  }

  /** `compaction: {compactor: {queue: [q1, q2, ...]}}`. */
  function QueueListDocument(names: seq<string>): seq<(string, Node)> {
    [("compaction", Nest(["compactor", "queue"], Lst(Strs(names))))]
  }

  /** The dotted path of the nested queue list: `compaction.compactor.queue`. */
  lemma QueuePath()
    ensures ParentPrefix(Join(".", ["compaction", "compactor"])) + "queue" == QueueKey
  {
    assert ["compaction", "compactor"][1..] == ["compactor"];
    assert Join(".", ["compaction", "compactor"]) == "compaction.compactor";
  }

  /** The queue list under its two enclosing maps flattens as the list alone under their dotted path. */
  lemma QueueNesting(v: Node)
    ensures FlatNode("", "compaction", Nest(["compactor", "queue"], v), map[])
         == FlatNode(Join(".", ["compaction", "compactor"]), "queue", v, map[])
  {
    var ks := ["compaction", "compactor", "queue"];
    assert ks[1..] == ["compactor", "queue"];
    assert ks[..2] == ["compaction", "compactor"];
    assert PlainSegment(ks[0]) && PlainSegment(ks[1]) && PlainSegment(ks[2]);
    NestedUnderDottedParent("", ks, v, map[]);
    assert ParentPrefix("") + Join(".", ks[..2]) == Join(".", ["compaction", "compactor"]);
  }

  lemma NoCommaSpaceWithoutSpace(q: string)
    requires ' ' !in q
    ensures !ContainsCommaSpace(q)
  {
  }

  /** A non-empty join of non-empty names is non-empty. */
  lemma JoinNotEmpty(names: seq<string>)
    requires |names| >= 1 && names[0] != ""
    ensures Join(" ", names) != ""
  {
    if |names| > 1 {
      assert Join(" ", names) == names[0] + " " + Join(" ", names[1..]);
    }
  }

  /** The nested queue list flattens to its space-joined names under the dotted key. */
  lemma QueueListFlattened(names: seq<string>)
    requires |names| >= 1
    requires forall i :: 0 <= i < |names| ==> QueueName(names[i])
    ensures FlatNode("", "compaction", Nest(["compactor", "queue"], Lst(Strs(names))), map[])
         == Done(map[QueueKey := Join(" ", names)])
  {
    QueueNesting(Lst(Strs(names)));
    forall i | 0 <= i < |names|
      ensures !ContainsCommaSpace(names[i])
    {
      NoCommaSpaceWithoutSpace(names[i]);
    }
    StringListStoredSpaceJoined(Join(".", ["compaction", "compactor"]), "queue", names, map[]);
    QueuePath();
  }

  /**
   * The queue list is flattened to one entry, `compaction.compactor.queue`,
   * holding the names separated by single spaces, and the queue loop of
   * outputShellVariables walks exactly those names again.
   */
  lemma QueueListRoundTrip(names: seq<string>)
    requires |names| >= 1
    requires forall i :: 0 <= i < |names| ==> QueueName(names[i])
    ensures ParseDocument(QueueListDocument(names)) == Some(map[QueueKey := Join(" ", names)])
    ensures Queues(ParseDocument(QueueListDocument(names)).value) == names
  {
    var j := Join(" ", names);
    assert ParseDocument(QueueListDocument(names)) == Some(map[QueueKey := j]) by {
      QueueListFlattened(names);
      SingleEntryDocument("compaction", Nest(["compactor", "queue"], Lst(Strs(names))));
    }
    JoinNotEmpty(names);
    QueuesOfQueueEntry(j);
    SplitUndoesJoin(names);
  }

  /** A configuration holding only a non-empty queue entry walks the split of that entry. */
  lemma QueuesOfQueueEntry(queues: string)
    requires queues != ""
    ensures Queues(map[QueueKey := queues]) == SplitOnSpace(queues)
  {
  }

  /**
   * With the queue list from the cluster file and every listed queue's hosts
   * present, one COMPACTOR_HOSTS line is printed per listed queue.
   */
  lemma EveryListedQueueGetsItsLine(names: seq<string>, config: map<string, string>)
    requires |names| >= 1
    requires forall i :: 0 <= i < |names| ==> QueueName(names[i])
    requires QueueKey in config && config[QueueKey] == Join(" ", names)
    requires forall i :: 0 <= i < |names| ==> CompactorPrefix + names[i] in config
    ensures QueueAssignments(config, Queues(config))
         == seq(|names|, i requires 0 <= i < |names| => Assignment(CompactorHostsPrefix + names[i], config[CompactorPrefix + names[i]]))
  {
    JoinNotEmpty(names);
    SplitUndoesJoin(names);
    AllQueuesPresent(config, names);
  }

  lemma {:induction false} AllQueuesPresent(config: map<string, string>, qs: seq<string>)
    requires forall i :: 0 <= i < |qs| ==> CompactorPrefix + qs[i] in config
    ensures QueueAssignments(config, qs)
         == seq(|qs|, i requires 0 <= i < |qs| => Assignment(CompactorHostsPrefix + qs[i], config[CompactorPrefix + qs[i]]))
    decreases |qs|
  {
    if qs != [] {
      var init := qs[..|qs| - 1];
      AllQueuesPresent(config, init);
    }
  }
}
