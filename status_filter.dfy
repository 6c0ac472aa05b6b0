/**
 * The connectivity observer of the demo: the node reports an IPv4 and an IPv6
 * status on every change it notices, and the demo prints the IPv4 status only
 * when it differs from the one it printed last, starting from Disconnected.
 */
module StatusFilter {
  import opened Wrappers

  datatype NodeStatus = Disconnected | Connecting | Connected

  /** One notification from the node: the IPv4 status and the IPv6 status. */
  datatype Notification = Notification(v4: NodeStatus, v6: NodeStatus)

  /** The IPv4 status stored after `history`, starting from `initial`. */
  function Latest(initial: NodeStatus, history: seq<Notification>): (s: NodeStatus)
  {
    if history == [] then initial else history[|history| - 1].v4
  }

  /** The IPv4 statuses printed, in order, while `history` is delivered starting from `initial`. */
  function Printed(initial: NodeStatus, history: seq<Notification>): (out: seq<NodeStatus>)
    ensures |out| <= |history|
    decreases |history|
  {
    if history == [] then []
    else
      var before := history[..|history| - 1];
      var n := history[|history| - 1];
      Printed(initial, before) + (if Latest(initial, before) != n.v4 then [n.v4] else [])
  }

  /**
   * The printed statuses never repeat one after another, the first differs from the
   * initial status, the last is the stored status, and each was delivered.
   */
  lemma {:induction false} PrintedHasNoRepeats(initial: NodeStatus, history: seq<Notification>)
    ensures var out := Printed(initial, history);
      && (forall k :: 0 <= k < |out| - 1 ==> out[k] != out[k + 1])
      && (|out| > 0 ==> out[0] != initial && out[|out| - 1] == Latest(initial, history))
      && (|out| == 0 ==> Latest(initial, history) == initial)
      && (forall s :: s in out ==> exists n :: n in history && n.v4 == s)
    decreases |history|
  {
    if history != [] {
      var before := history[..|history| - 1];
      PrintedHasNoRepeats(initial, before);
      var out := Printed(initial, history);
      forall s | s in out ensures exists n :: n in history && n.v4 == s {
        if s in Printed(initial, before) {
          var n :| n in before && n.v4 == s;
          assert n in history;
        } else {
          assert history[|history| - 1] in history;
        }
      }
    }
  }

  /** Delivering the same IPv4 status twice in a row prints it at most once. */
  lemma SameStatusTwicePrintsOnce(initial: NodeStatus, history: seq<Notification>, first: Notification, second: Notification)
    requires first.v4 == second.v4
    ensures Printed(initial, history + [first, second]) == Printed(initial, history + [first])
  {
    var h := history + [first, second];
    assert h[..|h| - 1] == history + [first];
  }

  /** The IPv6 status never influences what is printed. */
  lemma {:induction false} IPv6Ignored(initial: NodeStatus, h1: seq<Notification>, h2: seq<Notification>)
    requires |h1| == |h2| && forall k :: 0 <= k < |h1| ==> h1[k].v4 == h2[k].v4
    ensures Printed(initial, h1) == Printed(initial, h2)
    decreases |h1|
  {
    if h1 != [] {
      IPv6Ignored(initial, h1[..|h1| - 1], h2[..|h2| - 1]);
    }
  }

  /** The demo's observer, with the global `previousV4Status` as its one field. */
  class StatusPrinter {
    var previousV4Status: NodeStatus
    ghost var History: seq<Notification>   // notifications delivered so far
    ghost var Output: seq<NodeStatus>      // statuses printed so far

    ghost predicate Valid()
      reads this
    {
      && previousV4Status == Latest(Disconnected, History)
      && Output == Printed(Disconnected, History)
    }

    constructor ()
      ensures Valid() && History == [] && Output == []
      ensures previousV4Status == Disconnected
    {
      previousV4Status := Disconnected;
      History, Output := [], [];
    }

    /** The status-changed callback: prints the IPv4 status if it changed, and stores it. */
    method OnStatusChanged(statV4: NodeStatus, statV6: NodeStatus) returns (printed: Option<NodeStatus>)
      requires Valid()
      modifies this
      ensures Valid()
      ensures History == old(History) + [Notification(statV4, statV6)]
      ensures printed == if old(previousV4Status) != statV4 then Some(statV4) else None
      ensures Output == old(Output) + (if printed.Some? then [printed.value] else [])
      ensures previousV4Status == statV4
    {
      ghost var h := History + [Notification(statV4, statV6)];
      assert h[..|h| - 1] == History;
      if previousV4Status != statV4 {
        printed := Some(statV4);
        Output := Output + [statV4];
        previousV4Status := statV4;
      } else {
        printed := None;
      }
      History := h;
    }
  }
}
