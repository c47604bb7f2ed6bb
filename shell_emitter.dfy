/**
 * ClusterConfigParser.outputShellVariables: the flat configuration map
 * becomes `NAME="value"` shell assignments, one per line, in a fixed order.
 */
module ShellEmitter {
  import opened Wrappers
  import opened JavaText

  /** One `NAME="value"` line. */
  datatype Assignment = Assignment(name: string, value: string)

  /** PROPERTY_FORMAT `%s="%s"%n`, without the platform line separator. */
  function Format(a: Assignment): string {
    a.name + "=\"" + a.value + "\""
  }

  /** The printed text of the assignments, one line each, in order. */
  function FormatAll(assignments: seq<Assignment>): (lines: seq<string>)
    ensures |lines| == |assignments|
  {
    if assignments == [] then []
    else FormatAll(assignments[..|assignments| - 1]) + [Format(assignments[|assignments| - 1])]
  }

  /** SECTIONS: the host sections, in the order they are checked. */
  const Sections: seq<string> := ["manager", "monitor", "gc", "tserver"]

  /** A section whose absence is fatal; the others only draw a warning. */
  predicate Required(section: string) {
    section == "manager" || section == "tserver"
  }

  const CoordinatorKey := "compaction.coordinator"
  const QueueKey := "compaction.compactor.queue"
  const CompactorPrefix := "compaction.compactor."
  const CompactorHostsPrefix := "COMPACTOR_HOSTS_"

  /**
   * What outputShellVariables prints, and the required section whose
   * absence made it throw ("Required configuration section is missing"),
   * if any; the lines printed before the throw stay printed.
   */
  datatype Emission = Emission(assignments: seq<Assignment>, missing: Option<string>)

  /** The assignment `name="config[key]"` when `key` is present, nothing otherwise. */
  function IfPresent(config: map<string, string>, key: string, name: string): seq<Assignment> {
    if key in config then [Assignment(name, config[key])] else []
  }

  /**
   * The queue names the per-queue loop walks: `queues.split(" ")` when the
   * queue entry is present and not empty (StringUtils.isNotEmpty), none
   * otherwise.
   */
  function Queues(config: map<string, string>): seq<string> {
    if QueueKey in config && config[QueueKey] != "" then SplitOnSpace(config[QueueKey]) else []
  }

  /** For each queue `q`, in order, `COMPACTOR_HOSTS_q` when `compaction.compactor.q` is present. */
  function QueueAssignments(config: map<string, string>, qs: seq<string>): seq<Assignment>
    decreases |qs|
  {
    if qs == [] then []
    else
      var q := qs[|qs| - 1];
      QueueAssignments(config, qs[..|qs| - 1]) + IfPresent(config, CompactorPrefix + q, CompactorHostsPrefix + q)
  }

  /**
   * What the loop over SECTIONS prints: the manager line (required), the
   * monitor and gc lines (each only if present) and the tserver line
   * (required), stopping at the first required section that is absent.
   */
  function SectionLines(config: map<string, string>): Emission {
    if "manager" !in config then Emission([], Some("manager"))
    else
      var head := [Assignment("MANAGER_HOSTS", config["manager"])]
        + IfPresent(config, "monitor", "MONITOR_HOSTS")
        + IfPresent(config, "gc", "GC_HOSTS");
      if "tserver" !in config then Emission(head, Some("tserver"))
      else Emission(head + [Assignment("TSERVER_HOSTS", config["tserver"])], None)
  }

  /** What follows the sections: the coordinator line, the queue list line and one line per listed queue with hosts. */
  function CompactionAssignments(config: map<string, string>): seq<Assignment> {
    IfPresent(config, CoordinatorKey, "COORDINATOR_HOSTS")
      + IfPresent(config, QueueKey, "COMPACTION_QUEUES")
      + QueueAssignments(config, Queues(config))
  }

  /** The specification of outputShellVariables: the section lines and, unless a required section is absent, the compaction lines. */
  function ShellVariables(config: map<string, string>): Emission {
    var sections := SectionLines(config);
    if sections.missing.Some? then sections
    else Emission(sections.assignments + CompactionAssignments(config), None)
  }

  /** `section.toUpperCase() + "_HOSTS"`. */
  function HostsName(section: string): string {
    AsciiUpper(section) + "_HOSTS"
  }

  lemma SectionNames()
    ensures HostsName("manager") == "MANAGER_HOSTS"
    ensures HostsName("monitor") == "MONITOR_HOSTS"
    ensures HostsName("gc") == "GC_HOSTS"
    ensures HostsName("tserver") == "TSERVER_HOSTS"
  {
    assert AsciiUpper("manager") == "MANAGER";
    assert AsciiUpper("monitor") == "MONITOR";
    assert AsciiUpper("gc") == "GC";
    assert AsciiUpper("tserver") == "TSERVER";
  }

  /** SECTIONS, element by element, and which of them are required. */
  lemma SectionsSpelledOut()
    ensures Sections[0] == "manager" && Sections[1] == "monitor" && Sections[2] == "gc" && Sections[3] == "tserver"
    ensures Required("manager") && Required("tserver") && !Required("monitor") && !Required("gc")
  {
    assert "monitor"[1] != "manager"[1] && "monitor"[0] != "tserver"[0];
    assert "gc"[0] != "manager"[0] && "gc"[0] != "tserver"[0];
  }

  /**
   * The loop over a list of sections from index `s` on, step by step: a
   * present section prints its line, a missing required one throws, a
   * missing optional one is skipped.
   */
  function SectionLoop(config: map<string, string>, sections: seq<string>, s: nat): Emission
    requires s <= |sections|
    decreases |sections| - s
  {
    if s == |sections| then Emission([], None)
    else
      var section := sections[s];
      if section in config then
        var rest := SectionLoop(config, sections, s + 1);
        Emission([Assignment(HostsName(section), config[section])] + rest.assignments, rest.missing)
      else if Required(section) then Emission([], Some(section))
      else SectionLoop(config, sections, s + 1)
  }

  /** The last two steps of the loop over SECTIONS: gc, then tserver. */
  lemma SectionLoopTail(config: map<string, string>)
    ensures SectionLoop(config, Sections, 2)
         == if "tserver" in config
            then Emission(IfPresent(config, "gc", "GC_HOSTS") + [Assignment("TSERVER_HOSTS", config["tserver"])], None)
            else Emission(IfPresent(config, "gc", "GC_HOSTS"), Some("tserver"))
  {
    SectionNames();
    SectionsSpelledOut();
    var tserver := SectionLoop(config, Sections, 3);
    assert tserver == (if "tserver" in config then Emission([Assignment("TSERVER_HOSTS", config["tserver"])], None)
                       else Emission([], Some("tserver")));
    assert [] + tserver.assignments == tserver.assignments;
    assert IfPresent(config, "gc", "GC_HOSTS") + [] == IfPresent(config, "gc", "GC_HOSTS");
  }

  /** The loop over SECTIONS prints exactly the section lines of the specification and throws exactly when it does. */
  lemma SectionLoopMeetsSectionLines(config: map<string, string>)
    ensures SectionLoop(config, Sections, 0) == SectionLines(config)
  {
    SectionNames();
    SectionsSpelledOut();
    SectionLoopTail(config);
    var mon := IfPresent(config, "monitor", "MONITOR_HOSTS");
    var gc := IfPresent(config, "gc", "GC_HOSTS");
    var tail := SectionLoop(config, Sections, 2);
    var monitor := SectionLoop(config, Sections, 1);
    assert monitor == Emission(mon + tail.assignments, tail.missing) by {
      assert [] + tail.assignments == tail.assignments;
    }
    if "manager" in config {
      var m := [Assignment("MANAGER_HOSTS", config["manager"])];
      assert SectionLoop(config, Sections, 0) == Emission(m + monitor.assignments, monitor.missing);
      if "tserver" in config {
        var t := [Assignment("TSERVER_HOSTS", config["tserver"])];
        assert m + (mon + (gc + t)) == m + mon + gc + t;
      } else {
        assert m + (mon + gc) == m + mon + gc;
      }
    }
  }

  /** One more queue adds that queue's line, if its hosts are present. */
  lemma QueueStep(config: map<string, string>, qs: seq<string>, i: nat)
    requires i < |qs|
    ensures QueueAssignments(config, qs[..i + 1])
         == QueueAssignments(config, qs[..i]) + IfPresent(config, CompactorPrefix + qs[i], CompactorHostsPrefix + qs[i])
  {
    assert qs[..i + 1][..i] == qs[..i];
  }

  lemma FormatAllAppend(assignments: seq<Assignment>, a: Assignment)
    ensures FormatAll(assignments + [a]) == FormatAll(assignments) + [Format(a)]
  {
    assert (assignments + [a])[..|assignments|] == assignments;
  }

  lemma {:induction false} FormatAllConcat(xs: seq<Assignment>, ys: seq<Assignment>)
    ensures FormatAll(xs + ys) == FormatAll(xs) + FormatAll(ys)
    decreases |ys|
  {
    if ys == [] {
      assert xs + ys == xs;
    } else {
      var last := ys[|ys| - 1];
      var init := ys[..|ys| - 1];
      assert xs + ys == (xs + init) + [last];
      assert ys == init + [last];
      FormatAllAppend(xs + init, last);
      FormatAllAppend(init, last);
      FormatAllConcat(xs, init);
    }
  }

  /** The indexed loop over the split queue names: one line per queue whose hosts are present. */
  method OutputQueueVariables(config: map<string, string>, q: seq<string>) returns (out: seq<string>)
    ensures out == FormatAll(QueueAssignments(config, q))
  {
    out := [];
    for i := 0 to |q|
      invariant out == FormatAll(QueueAssignments(config, q[..i]))
    {
      QueueStep(config, q, i);
      if CompactorPrefix + q[i] in config {
        var a := Assignment(CompactorHostsPrefix + q[i], config[CompactorPrefix + q[i]]);
        FormatAllAppend(QueueAssignments(config, q[..i]), a);
        out := out + [Format(a)];
      } else {
        assert QueueAssignments(config, q[..i + 1]) == QueueAssignments(config, q[..i]);
      }
    }
    assert q[..|q|] == q;
  }

  /**
   * The loop over SECTIONS, walking the given section list: a line for each
   * present section, stopping at the first missing required one.
   */
  method OutputSections(config: map<string, string>, sections: seq<string>) returns (out: seq<string>, missing: Option<string>)
    ensures missing == SectionLoop(config, sections, 0).missing
    ensures out == FormatAll(SectionLoop(config, sections, 0).assignments)
  {
    out, missing := [], None;
    ghost var emitted: seq<Assignment> := [];
    for s := 0 to |sections|
      invariant SectionLoop(config, sections, 0)
             == Emission(emitted + SectionLoop(config, sections, s).assignments, SectionLoop(config, sections, s).missing)
      invariant out == FormatAll(emitted)
    {
      var section := sections[s];
      if section in config {
        var a := Assignment(HostsName(section), config[section]);
        FormatAllAppend(emitted, a);
        assert emitted + ([a] + SectionLoop(config, sections, s + 1).assignments)
            == (emitted + [a]) + SectionLoop(config, sections, s + 1).assignments;
        out, emitted := out + [Format(a)], emitted + [a];
      } else if section == "manager" || section == "tserver" {
        assert emitted + [] == emitted;
        missing := Some(section);
        return;
      }
    }
    assert emitted + [] == emitted;
  }

  /** The part after the section loop: the coordinator, queue list and per-queue lines. */
  method OutputCompactionVariables(config: map<string, string>) returns (out: seq<string>)
    ensures out == FormatAll(CompactionAssignments(config))
  {
    out := [];
    ghost var emitted: seq<Assignment> := [];
    if CoordinatorKey in config {
      var a := Assignment("COORDINATOR_HOSTS", config[CoordinatorKey]);
      out, emitted := [Format(a)], [a];
    }
    if QueueKey in config {
      var a := Assignment("COMPACTION_QUEUES", config[QueueKey]);
      FormatAllAppend(emitted, a);
      out, emitted := out + [Format(a)], emitted + [a];
    }
    assert emitted == IfPresent(config, CoordinatorKey, "COORDINATOR_HOSTS") + IfPresent(config, QueueKey, "COMPACTION_QUEUES");
    assert out == FormatAll(emitted);
    var queues: Option<string> := if QueueKey in config then Some(config[QueueKey]) else None;
    if queues.Some? && queues.value != "" {
      var qs := SplitOnSpace(queues.value);
      assert qs == Queues(config);
      var lines := OutputQueueVariables(config, qs);
      FormatAllConcat(emitted, QueueAssignments(config, qs));
      out := out + lines;
    } else {
      assert Queues(config) == [];
      assert emitted + QueueAssignments(config, []) == emitted;
    }
  }

  /** outputShellVariables: the printed lines and, when it throws, the missing required section. */
  method OutputShellVariables(config: map<string, string>) returns (out: seq<string>, missing: Option<string>)
    ensures missing == ShellVariables(config).missing
    ensures out == FormatAll(ShellVariables(config).assignments)
  {
    out, missing := OutputSections(config, Sections);
    SectionLoopMeetsSectionLines(config);
    if missing.Some? {
      return;
    }
    var lines := OutputCompactionVariables(config);
    FormatAllConcat(SectionLines(config).assignments, CompactionAssignments(config));
    out := out + lines;
  }
}
