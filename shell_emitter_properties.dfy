/**
 * What outputShellVariables promises about its output: which failures are
 * fatal, and for every variable name exactly when, and with which value, a
 * line for it is printed.
 */
module ShellEmitterProperties {
  import opened Wrappers
  import opened JavaText
  import opened ShellEmitter

  // ---------------------------------------------------------------------
  // Printed lines
  // ---------------------------------------------------------------------

  /** FormatAll prints the assignments one line each, in their own order. */
  lemma {:induction false} FormatAllLineByLine(assignments: seq<Assignment>)
    ensures |FormatAll(assignments)| == |assignments|
    ensures forall i :: 0 <= i < |assignments| ==> FormatAll(assignments)[i] == Format(assignments[i])
    decreases |assignments|
  {
    if assignments != [] {
      var init := assignments[..|assignments| - 1];
      FormatAllLineByLine(init);
      assert forall i :: 0 <= i < |init| ==> init[i] == assignments[i];
    }
  }

  // ---------------------------------------------------------------------
  // Required and optional sections
  // ---------------------------------------------------------------------

  /**
   * The output stops with an error exactly when the manager or the tserver
   * section is absent, and the error names the first of them that is
   * absent; monitor and gc never stop it.
   */
  lemma MissingOnlyForRequiredSections(config: map<string, string>)
    ensures ShellVariables(config).missing == Some("manager") <==> "manager" !in config
    ensures ShellVariables(config).missing == Some("tserver") <==> "manager" in config && "tserver" !in config
    ensures ShellVariables(config).missing.None? <==> "manager" in config && "tserver" in config
    ensures ShellVariables(config).missing.Some? ==> Required(ShellVariables(config).missing.value)
    ensures "manager" !in config ==> ShellVariables(config).assignments == []
  {
  }

  /**
   * When the tserver section is the missing one, the manager line and the
   * present ones of monitor and gc have already been printed, and nothing
   * about compaction.
   */
  lemma LinesBeforeMissingTserver(config: map<string, string>)
    requires "manager" in config && "tserver" !in config
    ensures |ShellVariables(config).assignments| == 1 + (if "monitor" in config then 1 else 0) + (if "gc" in config then 1 else 0)
    ensures ShellVariables(config).assignments[0] == Assignment("MANAGER_HOSTS", config["manager"])
    ensures forall a :: a in ShellVariables(config).assignments ==>
              a.name in {"MANAGER_HOSTS", "MONITOR_HOSTS", "GC_HOSTS"}
    ensures ShellVariables(config).missing == Some("tserver")
    ensures ShellVariables(config).assignments
         == [Assignment("MANAGER_HOSTS", config["manager"])]
            + IfPresent(config, "monitor", "MONITOR_HOSTS")
            + IfPresent(config, "gc", "GC_HOSTS")
  {
  }

  // ---------------------------------------------------------------------
  // Per-queue lines
  // ---------------------------------------------------------------------

  /** Two per-queue names are equal only for the same queue. */
  lemma CompactorNamesDistinct(q: string, q': string)
    requires CompactorHostsPrefix + q == CompactorHostsPrefix + q'
    ensures q == q'
  {
    assert q == (CompactorHostsPrefix + q)[|CompactorHostsPrefix|..];
    assert q' == (CompactorHostsPrefix + q')[|CompactorHostsPrefix|..];
  }

  /** Every per-queue line is named COMPACTOR_HOSTS_ followed by a queue of the list. */
  lemma {:induction false} QueueLinesNamed(config: map<string, string>, qs: seq<string>, a: Assignment)
    requires a in QueueAssignments(config, qs)
    ensures exists q :: q in qs && a.name == CompactorHostsPrefix + q
    decreases |qs|
  {
    var init := qs[..|qs| - 1];
    var last := qs[|qs| - 1];
    if a in QueueAssignments(config, init) {
      QueueLinesNamed(config, init, a);
      var q :| q in init && a.name == CompactorHostsPrefix + q;
      assert q in qs;
    } else {
      assert a.name == CompactorHostsPrefix + last;
    }
  }

  /**
   * `COMPACTOR_HOSTS_q="v"` is printed by the queue loop exactly when `q` is
   * one of the listed queues and `compaction.compactor.q` is `v`.
   */
  lemma {:induction false} QueueLineIff(config: map<string, string>, qs: seq<string>, q: string, v: string)
    ensures Assignment(CompactorHostsPrefix + q, v) in QueueAssignments(config, qs)
        <==> q in qs && CompactorPrefix + q in config && config[CompactorPrefix + q] == v
    decreases |qs|
  {
    if qs != [] {
      var init := qs[..|qs| - 1];
      var last := qs[|qs| - 1];
      QueueLineIff(config, init, q, v);
      assert qs == init + [last];
      if Assignment(CompactorHostsPrefix + q, v) in IfPresent(config, CompactorPrefix + last, CompactorHostsPrefix + last) {
        CompactorNamesDistinct(q, last);
      }
    }
  }

  /** A queue listed twice gets its line printed twice: the loop does not remove duplicates. */
  lemma {:induction false} QueueLineCount(config: map<string, string>, qs: seq<string>)
    ensures |QueueAssignments(config, qs)| == |set i | 0 <= i < |qs| && CompactorPrefix + qs[i] in config|
    decreases |qs|
  {
    if qs != [] {
      var n := |qs| - 1;
      var init := qs[..n];
      QueueLineCount(config, init);
      var before := set i | 0 <= i < |init| && CompactorPrefix + init[i] in config;
      var after := set i | 0 <= i < |qs| && CompactorPrefix + qs[i] in config;
      assert before == set i | 0 <= i < n && CompactorPrefix + qs[i] in config;
      if CompactorPrefix + qs[n] in config {
        assert after == before + {n};
      } else {
        assert after == before;
      }
    }
  }

  // ---------------------------------------------------------------------
  // Every variable name, when the output completes
  // ---------------------------------------------------------------------

  /** No section, coordinator or queue-list variable name is a per-queue name. */
  lemma SectionNamesAreNotCompactionNames(q: string)
    ensures "MANAGER_HOSTS" != CompactorHostsPrefix + q && "MONITOR_HOSTS" != CompactorHostsPrefix + q
    ensures "GC_HOSTS" != CompactorHostsPrefix + q && "TSERVER_HOSTS" != CompactorHostsPrefix + q
    ensures "COORDINATOR_HOSTS" != CompactorHostsPrefix + q && "COMPACTION_QUEUES" != CompactorHostsPrefix + q
  {
    var n := CompactorHostsPrefix + q;
    assert n[0] == 'C' && n[2] == 'M' && n[7] == 'O';
    assert "COORDINATOR_HOSTS"[2] == 'O';
    assert "COMPACTION_QUEUES"[7] == 'I';
  }

  /** No per-queue line uses a section, coordinator or queue-list name. */
  lemma QueueLinesUseTheirOwnNames(config: map<string, string>, a: Assignment)
    requires a in QueueAssignments(config, Queues(config))
    ensures a.name !in {"MANAGER_HOSTS", "MONITOR_HOSTS", "GC_HOSTS", "TSERVER_HOSTS", "COORDINATOR_HOSTS", "COMPACTION_QUEUES"}
  {
    QueueLinesNamed(config, Queues(config), a);
    var q :| q in Queues(config) && a.name == CompactorHostsPrefix + q;
    SectionNamesAreNotCompactionNames(q);
  }

  /** The six fixed variable names are pairwise distinct. */
  lemma FixedNamesDistinct()
    ensures "MANAGER_HOSTS" != "MONITOR_HOSTS" && "GC_HOSTS" != "TSERVER_HOSTS"
    ensures "MANAGER_HOSTS" != "GC_HOSTS" && "MANAGER_HOSTS" != "TSERVER_HOSTS"
    ensures "MONITOR_HOSTS" != "GC_HOSTS" && "MONITOR_HOSTS" != "TSERVER_HOSTS"
    ensures "COORDINATOR_HOSTS" != "COMPACTION_QUEUES"
  {
    assert "MANAGER_HOSTS"[1] != "MONITOR_HOSTS"[1];
    assert "COORDINATOR_HOSTS"[2] != "COMPACTION_QUEUES"[2];
  }

  /** A line with a section variable name can only come from the section loop. */
  lemma SectionNamesOnlyFromSections(config: map<string, string>, x: Assignment)
    requires "manager" in config && "tserver" in config
    requires x.name in {"MANAGER_HOSTS", "MONITOR_HOSTS", "GC_HOSTS", "TSERVER_HOSTS"}
    ensures x in ShellVariables(config).assignments <==> x in SectionLines(config).assignments
  {
    var compaction := CompactionAssignments(config);
    assert ShellVariables(config).assignments == SectionLines(config).assignments + compaction;
    if x in QueueAssignments(config, Queues(config)) {
      QueueLinesUseTheirOwnNames(config, x);
    }
  }

  /**
   * When the output completes: each host section's line carries that
   * section's value and appears exactly when the section is present.
   */
  lemma SectionLinesIff(config: map<string, string>, v: string)
    requires "manager" in config && "tserver" in config
    ensures Assignment("MANAGER_HOSTS", v) in ShellVariables(config).assignments <==> config["manager"] == v
    ensures Assignment("MONITOR_HOSTS", v) in ShellVariables(config).assignments <==> "monitor" in config && config["monitor"] == v
    ensures Assignment("GC_HOSTS", v) in ShellVariables(config).assignments <==> "gc" in config && config["gc"] == v
    ensures Assignment("TSERVER_HOSTS", v) in ShellVariables(config).assignments <==> config["tserver"] == v
  {
    FixedNamesDistinct();
    SectionNamesOnlyFromSections(config, Assignment("MANAGER_HOSTS", v));
    SectionNamesOnlyFromSections(config, Assignment("MONITOR_HOSTS", v));
    SectionNamesOnlyFromSections(config, Assignment("GC_HOSTS", v));
    SectionNamesOnlyFromSections(config, Assignment("TSERVER_HOSTS", v));
    assert SectionLines(config).assignments == [Assignment("MANAGER_HOSTS", config["manager"])]
      + IfPresent(config, "monitor", "MONITOR_HOSTS") + IfPresent(config, "gc", "GC_HOSTS")
      + [Assignment("TSERVER_HOSTS", config["tserver"])];
  }

  /**
   * When the output completes: COORDINATOR_HOSTS and COMPACTION_QUEUES each
   * appear exactly when their key is present, with its value.
   */
  lemma CompactionLinesIff(config: map<string, string>, v: string)
    requires "manager" in config && "tserver" in config
    ensures Assignment("COORDINATOR_HOSTS", v) in ShellVariables(config).assignments
        <==> CoordinatorKey in config && config[CoordinatorKey] == v
    ensures Assignment("COMPACTION_QUEUES", v) in ShellVariables(config).assignments
        <==> QueueKey in config && config[QueueKey] == v
  {
    var queueLines := QueueAssignments(config, Queues(config));
    forall a | a in queueLines
      ensures a.name !in {"COORDINATOR_HOSTS", "COMPACTION_QUEUES"}
    {
      QueueLinesUseTheirOwnNames(config, a);
    }
  }

  /**
   * When the output completes: `COMPACTOR_HOSTS_q="v"` appears exactly when
   * `q` is one of the space-separated names of `compaction.compactor.queue`
   * and `compaction.compactor.q` is `v`.
   */
  lemma CompactorLineIff(config: map<string, string>, q: string, v: string)
    requires "manager" in config && "tserver" in config
    ensures Assignment(CompactorHostsPrefix + q, v) in ShellVariables(config).assignments
        <==> q in Queues(config) && CompactorPrefix + q in config && config[CompactorPrefix + q] == v
  {
    QueueLineIff(config, Queues(config), q, v);
    SectionNamesAreNotCompactionNames(q);
  }

  /** Without a queue list, or with an empty one, no per-queue line is printed. */
  lemma NoQueueLinesWithoutQueueList(config: map<string, string>, q: string, v: string)
    requires QueueKey !in config || config[QueueKey] == ""
    ensures Assignment(CompactorHostsPrefix + q, v) !in ShellVariables(config).assignments
  {
    if "manager" in config && "tserver" in config {
      CompactorLineIff(config, q, v);
    } else if "manager" in config {
      SectionNamesAreNotCompactionNames(q);
      LinesBeforeMissingTserver(config);
    }
  }

  /** When the output completes, every line printed is one of the kinds above. */
  lemma EveryLineAccountedFor(config: map<string, string>, a: Assignment)
    requires "manager" in config && "tserver" in config
    requires a in ShellVariables(config).assignments
    ensures a.name in {"MANAGER_HOSTS", "MONITOR_HOSTS", "GC_HOSTS", "TSERVER_HOSTS", "COORDINATOR_HOSTS", "COMPACTION_QUEUES"}
         || exists q :: q in Queues(config) && a.name == CompactorHostsPrefix + q
  {
    if a in QueueAssignments(config, Queues(config)) {
      QueueLinesNamed(config, Queues(config), a);
    }
  }
}
