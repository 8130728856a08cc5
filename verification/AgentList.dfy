/** Keys of agents across computers, their order, and the text a page's edge is
    handed out as. */
module AgentKeys {
  import opened Wrappers

  /** Code point by code point, the shorter first: how texts are compared. */
  predicate Less(a: string, b: string) {
    b != "" && (a == "" || a[0] < b[0] || (a[0] == b[0] && Less(a[1..], b[1..])))
  }

  datatype Key = Key(computer: string, agent: string)

  predicate Below(a: Key, b: Key) {
    Less(a.computer, b.computer) || (a.computer == b.computer && Less(a.agent, b.agent))
  }

  lemma {:induction false} LessIsStrict(a: string)
    ensures !Less(a, a)
  {
    if a != "" { LessIsStrict(a[1..]); }
  }

  lemma {:induction false} LessIsTransitive(a: string, b: string, c: string)
    requires Less(a, b) && Less(b, c)
    ensures Less(a, c)
  {
    if a != "" && a[0] == b[0] == c[0] { LessIsTransitive(a[1..], b[1..], c[1..]); }
  }

  lemma {:induction false} LessIsTotal(a: string, b: string)
    ensures Less(a, b) || a == b || Less(b, a)
  {
    if a != "" && b != "" && a[0] == b[0] {
      LessIsTotal(a[1..], b[1..]);
      assert a == [a[0]] + a[1..] && b == [b[0]] + b[1..];
    }
  }

  /** One text is below another if it breaks off earlier, or has the smaller character
      where they first differ. */
  lemma {:induction false} LessIff(a: string, b: string)
    ensures Less(a, b) <==>
            exists n :: 0 <= n <= |a| && n < |b| && a[..n] == b[..n] && (n == |a| || (a[n] as int) < (b[n] as int))
  {
    if a == "" {
      assert b != "" ==> a[..0] == b[..0];
    } else if b != "" {
      if a[0] == b[0] {
        LessIff(a[1..], b[1..]);
        if n :| 0 <= n <= |a| && n < |b| && a[..n] == b[..n] && (n == |a| || (a[n] as int) < (b[n] as int)) {
          assert n > 0;
          assert a[1..][..n - 1] == a[..n][1..] && b[1..][..n - 1] == b[..n][1..];
        }
        if Less(a[1..], b[1..]) {
          var n :| 0 <= n <= |a[1..]| && n < |b[1..]| && a[1..][..n] == b[1..][..n]
            && (n == |a[1..]| || (a[1..][n] as int) < (b[1..][n] as int));
          assert a[..n + 1] == [a[0]] + a[1..][..n] && b[..n + 1] == [b[0]] + b[1..][..n];
        }
      } else {
        assert a[..0] == b[..0];
        forall n | 0 < n <= |a| && n < |b| ensures a[..n] != b[..n] {
          assert a[..n][0] == a[0] && b[..n][0] == b[0];
        }
      }
    }
  }

  lemma BelowIsStrict(a: Key)
    ensures !Below(a, a)
  {
    LessIsStrict(a.computer);
    LessIsStrict(a.agent);
  }

  lemma BelowIsTransitive(a: Key, b: Key, c: Key)
    requires Below(a, b) && Below(b, c)
    ensures Below(a, c)
  {
    if Less(a.computer, b.computer) && Less(b.computer, c.computer) {
      LessIsTransitive(a.computer, b.computer, c.computer);
    } else if a.computer == b.computer == c.computer && Less(a.agent, b.agent) && Less(b.agent, c.agent) {
      LessIsTransitive(a.agent, b.agent, c.agent);
    }
  }

  ghost predicate Ascending(keys: seq<Key>) {
    forall i, j :: 0 <= i < j < |keys| ==> Below(keys[i], keys[j])
  }

  // ---- keys as text ----

  function EdgeText(k: Key): string {
    k.computer + "/" + k.agent
  }

  /** `_agent_key`: everything before the first slash, and everything after it. */
  function KeyOf(text: string): Key {
    if text == "" then Key("", "")
    else if text[0] == '/' then Key("", text[1..])
    else var rest := KeyOf(text[1..]); Key([text[0]] + rest.computer, rest.agent)
  }

  /** A text is cut at its first slash; without one, all of it is the computer. */
  lemma {:induction false} KeyOfCuts(text: string)
    ensures var k := KeyOf(text);
            '/' !in k.computer && if '/' in text then text == EdgeText(k) else k == Key(text, "")
  {
    if text != "" && text[0] != '/' {
      KeyOfCuts(text[1..]);
      assert text == [text[0]] + text[1..];
    }
  }

  /** A key reads back from its text exactly when its computer has no slash. */
  lemma {:induction false} KeyReadsBack(k: Key)
    ensures KeyOf(EdgeText(k)) == k <==> '/' !in k.computer
    decreases |k.computer|
  {
    var text := EdgeText(k);
    if k.computer == "" {
      assert text[0] == '/' && text[1..] == k.agent;
    } else {
      var rest := Key(k.computer[1..], k.agent);
      assert text[0] == k.computer[0] && text[1..] == EdgeText(rest);
      assert k.computer == [k.computer[0]] + rest.computer;
      KeyReadsBack(rest);
      if text[0] != '/' && KeyOf(text) == k {
        assert KeyOf(text).computer[1..] == rest.computer;
      }
    }
  }

  /** The cursor a request names; an empty one is none. */
  function Cursor(text: Option<string>): Option<Key> {
    if text.None? || text.value == "" then None else Some(KeyOf(text.value))
  }

  lemma CursorReadsBack(k: Key)
    requires '/' !in k.computer
    ensures Cursor(Some(EdgeText(k))) == Some(k)
  {
    KeyReadsBack(k);
  }
}

/** `agent_page`: agents across computers, a page at a time. */
module AgentList {
  import opened Wrappers
  import opened AgentKeys

  const PAGE_SIZE: nat := 50

  /** An agent a computer reports, and whether the account may look at it. */
  datatype Agent = Agent(id: string, visible: bool)
  datatype Computer = Computer(id: string, agents: seq<Agent>)

  datatype Page = Page(agents: seq<Key>, edge: Option<string>, more: bool)

  /** Computers are listed in id order, and a computer's agents are in id order. */
  ghost predicate Ordered(computers: seq<Computer>) {
    && (forall i, j :: 0 <= i < j < |computers| ==> Less(computers[i].id, computers[j].id))
    && (forall i, j, k :: 0 <= i < |computers| && 0 <= j < k < |computers[i].agents| ==>
          Less(computers[i].agents[j].id, computers[i].agents[k].id))
  }

  /** The agents of one computer the account may look at. */
  function Visible(id: string, agents: seq<Agent>): (keys: seq<Key>) {
    if agents == [] then []
    else if agents[0].visible then [Key(id, agents[0].id)] + Visible(id, agents[1..])
    else Visible(id, agents[1..])
  }

  /** Every agent the account may look at: the list the pages are cut from. */
  function All(computers: seq<Computer>): seq<Key> {
    if computers == [] then [] else Visible(computers[0].id, computers[0].agents) + All(computers[1..])
  }

  lemma {:induction false} VisibleIff(id: string, agents: seq<Agent>, k: Key)
    ensures k in Visible(id, agents) <==>
            k.computer == id && exists j :: 0 <= j < |agents| && agents[j] == Agent(k.agent, true)
  {
    if agents != [] {
      VisibleIff(id, agents[1..], k);
      forall j | 0 < j < |agents| ensures agents[j] == agents[1..][j - 1] {
      }
    }
  }

  /** The list holds an agent if and only if a listed computer reports it and the account
      may look at it. */
  lemma {:induction false} AllIff(computers: seq<Computer>, k: Key)
    ensures k in All(computers) <==>
            exists i, j :: 0 <= i < |computers| && 0 <= j < |computers[i].agents| &&
              computers[i].id == k.computer && computers[i].agents[j] == Agent(k.agent, true)
  {
    if computers != [] {
      VisibleIff(computers[0].id, computers[0].agents, k);
      AllIff(computers[1..], k);
      forall i | 0 < i < |computers| ensures computers[i] == computers[1..][i - 1] {
      }
    }
  }

  // ---- what a page is ----

  predicate Past(cursor: Option<Key>, k: Key) {
    cursor.None? || Below(cursor.value, k)
  }

  /** The keys past a cursor. */
  function Rest(keys: seq<Key>, cursor: Option<Key>): (rest: seq<Key>) {
    if keys == [] then []
    else if Past(cursor, keys[0]) then [keys[0]] + Rest(keys[1..], cursor)
    else Rest(keys[1..], cursor)
  }

  /** The keys up to and including a stop. */
  function UpTo(keys: seq<Key>, stop: Key): (some: seq<Key>) {
    if keys == [] then []
    else if Below(stop, keys[0]) then UpTo(keys[1..], stop)
    else [keys[0]] + UpTo(keys[1..], stop)
  }

  function Take(keys: seq<Key>, n: nat): seq<Key> {
    if |keys| <= n then keys else keys[..n]
  }

  /** The page a request asks for, of a list of keys. */
  function PageOf(keys: seq<Key>, cursor: Option<Key>, stop: Option<Key>): Page {
    var rest := Rest(keys, cursor);
    var agents := if stop.Some? then UpTo(rest, stop.value) else Take(rest, PAGE_SIZE);
    Page(agents, if agents == [] then None else Some(EdgeText(agents[|agents| - 1])), |agents| < |rest|)
  }

  // ---- what the loop does with each agent ----

  datatype Progress = Progress(agents: seq<Key>, more: bool)

  function Meet(k: Key, cursor: Option<Key>, stop: Option<Key>, p: Progress): Progress {
    if !Past(cursor, k) then p
    else if stop.Some? && Below(stop.value, k) then p.(more := true)
    else if stop.None? && |p.agents| == PAGE_SIZE then p.(more := true)
    else p.(agents := p.agents + [k])
  }

  function Collect(keys: seq<Key>, cursor: Option<Key>, stop: Option<Key>, p: Progress): Progress {
    if keys == [] || p.more then p else Collect(keys[1..], cursor, stop, Meet(keys[0], cursor, stop, p))
  }

  // ---- what storage lists ----

  /** The computers past an id. */
  function Beyond(computers: seq<Computer>, after: Option<string>): seq<Computer>
  {
    if computers == [] then []
    else if after.None? || Less(after.value, computers[0].id) then [computers[0]] + Beyond(computers[1..], after)
    else Beyond(computers[1..], after)
  }

  /** The computer of an id, when it is listed. */
  function Own(computers: seq<Computer>, id: string): (some: seq<Computer>)
    ensures |some| <= 1 && forall c :: c in some ==> c.id == id
  {
    if computers == [] then [] else if computers[0].id == id then [computers[0]] else Own(computers[1..], id)
  }

  /** `list_computers` with a limit. */
  function Listed(computers: seq<Computer>, after: Option<string>, limit: nat): seq<Computer> {
    var beyond := Beyond(computers, after);
    if |beyond| <= limit then beyond else beyond[..limit]
  }

  lemma {:induction false} CollectOn(a: seq<Key>, b: seq<Key>, cursor: Option<Key>, stop: Option<Key>, p: Progress)
    ensures Collect(a + b, cursor, stop, p) == Collect(b, cursor, stop, Collect(a, cursor, stop, p))
  {
    if a == [] || p.more {
      assert a == [] ==> a + b == b;
    } else {
      assert (a + b)[1..] == a[1..] + b;
      CollectOn(a[1..], b, cursor, stop, Meet(a[0], cursor, stop, p));
    }
  }

  lemma {:induction false} AllOn(a: seq<Computer>, b: seq<Computer>)
    ensures All(a + b) == All(a) + All(b)
  {
    if a == [] {
      assert a + b == b;
    } else {
      assert (a + b)[1..] == a[1..] + b;
      AllOn(a[1..], b);
    }
  }

  lemma {:induction false} NoneBeyond(computers: seq<Computer>, id: string)
    requires forall i :: 0 <= i < |computers| ==> !Less(id, computers[i].id)
    ensures Beyond(computers, Some(id)) == []
  {
    if computers != [] { NoneBeyond(computers[1..], id); }
  }

  lemma {:induction false} AllBeyond(computers: seq<Computer>, after: Option<string>)
    requires after.None? || forall i :: 0 <= i < |computers| ==> Less(after.value, computers[i].id)
    ensures Beyond(computers, after) == computers
  {
    if computers != [] { AllBeyond(computers[1..], after); }
  }

  lemma {:induction false} BeyondOn(a: seq<Computer>, b: seq<Computer>, after: Option<string>)
    ensures Beyond(a + b, after) == Beyond(a, after) + Beyond(b, after)
  {
    if a == [] {
      assert a + b == b;
    } else {
      assert (a + b)[1..] == a[1..] + b;
      BeyondOn(a[1..], b, after);
    }
  }

  /** Past the last of some computers come the others. */
  lemma BeyondLast(a: seq<Computer>, b: seq<Computer>)
    requires Ordered(a + b) && a != []
    ensures Beyond(a + b, Some(a[|a| - 1].id)) == b
  {
    var id := a[|a| - 1].id;
    forall i | 0 <= i < |a| ensures !Less(id, a[i].id) {
      assert (a + b)[i] == a[i] && (a + b)[|a| - 1] == a[|a| - 1];
      if Less(id, a[i].id) && i < |a| - 1 { LessIsTransitive(id, a[i].id, id); }
      LessIsStrict(id);
    }
    forall i | 0 <= i < |b| ensures Less(id, b[i].id) {
      assert (a + b)[|a| + i] == b[i] && (a + b)[|a| - 1] == a[|a| - 1];
    }
    NoneBeyond(a, id);
    AllBeyond(b, Some(id));
    BeyondOn(a, b, Some(id));
  }

  lemma {:induction false} RestOn(a: seq<Key>, b: seq<Key>, cursor: Option<Key>)
    ensures Rest(a + b, cursor) == Rest(a, cursor) + Rest(b, cursor)
  {
    if a == [] {
      assert a + b == b;
    } else {
      assert (a + b)[1..] == a[1..] + b;
      RestOn(a[1..], b, cursor);
    }
  }

  /** Nothing on an earlier computer is past the cursor. */
  lemma {:induction false} EarlierIsSkipped(id: string, agents: seq<Agent>, cursor: Key)
    requires Less(id, cursor.computer)
    ensures Rest(Visible(id, agents), Some(cursor)) == []
  {
    if agents != [] {
      if Less(cursor.computer, id) { LessIsTransitive(id, cursor.computer, id); }
      LessIsStrict(id);
      EarlierIsSkipped(id, agents[1..], cursor);
    }
  }

  lemma {:induction false} OwnIsAmong(computers: seq<Computer>, id: string)
    requires forall i :: 0 <= i < |computers| ==> computers[i].id != id
    ensures Own(computers, id) == []
  {
    if computers != [] { OwnIsAmong(computers[1..], id); }
  }

  /** Reading the cursor's own computer and those past it misses nothing. */
  lemma {:induction false} NothingBeforeCursor(computers: seq<Computer>, cursor: Key)
    requires Ordered(computers)
    ensures Rest(All(Own(computers, cursor.computer) + Beyond(computers, Some(cursor.computer))), Some(cursor))
         == Rest(All(computers), Some(cursor))
  {
    var id := cursor.computer;
    if computers != [] {
      var first, others := computers[0], computers[1..];
      LessIsStrict(id);
      LessIsTotal(first.id, id);
      if Less(first.id, id) {
        if Less(id, first.id) { LessIsTransitive(id, first.id, id); }
        NothingBeforeCursor(others, cursor);
        EarlierIsSkipped(first.id, first.agents, cursor);
        RestOn(Visible(first.id, first.agents), All(others), Some(cursor));
      } else {
        forall i | 0 <= i < |others| ensures Less(id, others[i].id) {
          assert others[i] == computers[i + 1];
          if first.id != id { LessIsTransitive(id, first.id, computers[i + 1].id); }
        }
        AllBeyond(others, Some(id));
        assert [first] + others == computers;
        if first.id != id {
          forall i | 0 <= i < |computers| ensures computers[i].id != id && Less(id, computers[i].id) {
            if i > 0 { assert computers[i] == others[i - 1]; }
          }
          AllBeyond(computers, Some(id));
          OwnIsAmong(computers, id);
          assert [] + computers == computers;
        }
      }
    }
  }

  lemma {:induction false} CollectSkips(keys: seq<Key>, cursor: Option<Key>, stop: Option<Key>, p: Progress)
    ensures Collect(keys, cursor, stop, p) == Collect(Rest(keys, cursor), cursor, stop, p)
  {
    if keys != [] && !p.more {
      CollectSkips(keys[1..], cursor, stop, Meet(keys[0], cursor, stop, p));
      if Past(cursor, keys[0]) {
        assert Rest(keys, cursor)[1..] == Rest(keys[1..], cursor);
      }
    }
  }

  /** Without a stop the loop takes a page and looks one further. */
  lemma {:induction false} CollectTakes(keys: seq<Key>, cursor: Option<Key>, p: Progress)
    requires !p.more && |p.agents| <= PAGE_SIZE
    ensures var rest, room := Rest(keys, cursor), PAGE_SIZE - |p.agents|;
            Collect(keys, cursor, None, p) == Progress(p.agents + Take(rest, room), room < |rest|)
  {
    if keys == [] {
      assert p.agents + [] == p.agents;
    } else if !Past(cursor, keys[0]) {
      CollectTakes(keys[1..], cursor, p);
    } else if |p.agents| == PAGE_SIZE {
      assert p.agents + Take(Rest(keys, cursor), 0) == p.agents;
    } else {
      var next := Meet(keys[0], cursor, None, p);
      CollectTakes(keys[1..], cursor, next);
      var rest, room := Rest(keys, cursor), PAGE_SIZE - |p.agents|;
      assert rest == [keys[0]] + Rest(keys[1..], cursor);
      hide Rest, Below, Collect;
      assert p.agents + Take(rest, room) == next.agents + Take(rest[1..], room - 1);
    }
  }

  lemma {:induction false} RestWithin(keys: seq<Key>, cursor: Option<Key>)
    ensures |Rest(keys, cursor)| <= |keys|
    ensures forall k :: k in Rest(keys, cursor) ==> k in keys
  {
    if keys != [] { RestWithin(keys[1..], cursor); }
  }

  lemma {:induction false} NoneUpTo(keys: seq<Key>, stop: Key)
    requires forall k :: k in keys ==> Below(stop, k)
    ensures UpTo(keys, stop) == []
  {
    if keys != [] {
      assert keys[0] in keys;
      NoneUpTo(keys[1..], stop);
    }
  }

  /** With a stop the loop takes what is not past it, and breaks at the first that is. */
  lemma {:induction false} CollectStops(keys: seq<Key>, cursor: Option<Key>, stop: Key, p: Progress)
    requires !p.more && Ascending(keys)
    ensures var rest := Rest(keys, cursor);
            Collect(keys, cursor, Some(stop), p) == Progress(p.agents + UpTo(rest, stop), |UpTo(rest, stop)| < |rest|)
  {
    if keys == [] {
      assert p.agents + [] == p.agents;
    } else if !Past(cursor, keys[0]) {
      CollectStops(keys[1..], cursor, stop, p);
    } else {
      var rest := Rest(keys, cursor);
      assert rest[0] == keys[0] && rest[1..] == Rest(keys[1..], cursor);
      if Below(stop, keys[0]) {
        RestWithin(keys, cursor);
        forall k | k in rest ensures Below(stop, k) {
          var i :| 0 <= i < |keys| && keys[i] == k;
          if i > 0 { BelowIsTransitive(stop, keys[0], keys[i]); }
        }
        NoneUpTo(rest, stop);
        assert p.agents + [] == p.agents;
      } else {
        var next := Meet(keys[0], cursor, Some(stop), p);
        CollectStops(keys[1..], cursor, stop, next);
        assert p.agents + UpTo(rest, stop) == next.agents + UpTo(rest[1..], stop);
      }
    }
  }

  lemma {:induction false} VisibleIsAscending(id: string, agents: seq<Agent>)
    requires forall j, k :: 0 <= j < k < |agents| ==> Less(agents[j].id, agents[k].id)
    ensures Ascending(Visible(id, agents))
    ensures forall k :: k in Visible(id, agents) ==>
        k.computer == id && exists j :: 0 <= j < |agents| && agents[j].id == k.agent
  {
    if agents != [] {
      VisibleIsAscending(id, agents[1..]);
      forall k | k in Visible(id, agents[1..]) ensures Below(Key(id, agents[0].id), k) {
        var j :| 0 <= j < |agents[1..]| && agents[1..][j].id == k.agent;
        assert agents[j + 1].id == k.agent;
      }
      forall k | k in Visible(id, agents)
        ensures k.computer == id && exists j :: 0 <= j < |agents| && agents[j].id == k.agent
      {
        if k in Visible(id, agents[1..]) {
          var j :| 0 <= j < |agents[1..]| && agents[1..][j].id == k.agent;
          assert agents[j + 1].id == k.agent;
        }
      }
    }
  }

  /** The list is in order, and each agent is in it once. */
  lemma {:induction false} AllIsAscending(computers: seq<Computer>)
    requires Ordered(computers)
    ensures Ascending(All(computers))
    ensures forall k :: k in All(computers) ==> exists i :: 0 <= i < |computers| && computers[i].id == k.computer
  {
    if computers != [] {
      var first, others := computers[0], computers[1..];
      VisibleIsAscending(first.id, first.agents);
      AllIsAscending(others);
      forall k | k in All(others)
        ensures Less(first.id, k.computer) && exists i :: 0 <= i < |computers| && computers[i].id == k.computer
      {
        var i :| 0 <= i < |others| && others[i].id == k.computer;
        assert computers[i + 1].id == k.computer;
      }
    }
  }

  lemma CollectIsPage(computers: seq<Computer>, cursor: Option<Key>, stop: Option<Key>)
    requires Ordered(computers)
    ensures var page := PageOf(All(computers), cursor, stop);
            Collect(All(computers), cursor, stop, Progress([], false)) == Progress(page.agents, page.more)
  {
    var p := Progress([], false);
    AllIsAscending(computers);
    match stop {
      case None => CollectTakes(All(computers), cursor, p);
      case Some(k) => CollectStops(All(computers), cursor, k, p);
    }
  }

  /** What the loop starts with is enough. */
  lemma FirstReads(listed: seq<Computer>, cursor: Option<Key>, stop: Option<Key>, p: Progress)
    requires Ordered(listed)
    ensures var needed := if cursor.None? then [] + Beyond(listed, None)
                         else Own(listed, cursor.value.computer) + Beyond(listed, Some(cursor.value.computer));
            Collect(All(listed), cursor, stop, p) == Collect(All(needed), cursor, stop, p)
  {
    match cursor {
      case None =>
        AllBeyond(listed, None);
        assert [] + listed == listed;
      case Some(k) =>
        NothingBeforeCursor(listed, k);
        CollectSkips(All(listed), cursor, stop, p);
        CollectSkips(All(Own(listed, k.computer) + Beyond(listed, Some(k.computer))), cursor, stop, p);
    }
  }

  lemma {:induction false} BeyondIsSuffix(computers: seq<Computer>, after: Option<string>) returns (j: nat)
    requires Ordered(computers)
    ensures j <= |computers| && Beyond(computers, after) == computers[j..]
  {
    if computers == [] {
      j := 0;
    } else if after.None? || Less(after.value, computers[0].id) {
      forall i | 0 < i < |computers| ensures after.Some? ==> Less(after.value, computers[i].id) {
        if after.Some? { LessIsTransitive(after.value, computers[0].id, computers[i].id); }
      }
      AllBeyond(computers, after);
      j := 0;
    } else {
      j := BeyondIsSuffix(computers[1..], after);
      j := j + 1;
    }
  }

  /** Past the last computer of a batch come those the batch left. */
  lemma BatchMovesOn(listed: seq<Computer>, after: Option<string>, n: nat)
    requires Ordered(listed) && 0 < n <= |Beyond(listed, after)|
    ensures Beyond(listed, Some(Beyond(listed, after)[n - 1].id)) == Beyond(listed, after)[n..]
  {
    var j := BeyondIsSuffix(listed, after);
    assert listed[..j + n] + listed[j + n..] == listed;
    BeyondLast(listed[..j + n], listed[j + n..]);
  }

  lemma NoneLeft(listed: seq<Computer>, after: Option<string>)
    requires Listed(listed, after, PAGE_SIZE) == []
    ensures Beyond(listed, after) == []
  {
  }

  /** Reading what is pending and one batch leaves what lies past the last of them. */
  lemma BatchSplits(listed: seq<Computer>, pending: seq<Computer>, after: Option<string>, cursor: Option<Key>,
      stop: Option<Key>, p: Progress)
    requires Ordered(listed) && pending + Listed(listed, after, PAGE_SIZE) != []
    requires pending != [] ==> after == Some(pending[|pending| - 1].id)
    ensures var batch := Listed(listed, after, PAGE_SIZE);
            var computers := pending + batch;
            var left := [] + Beyond(listed, Some(computers[|computers| - 1].id));
            && |left| < |pending + Beyond(listed, after)|
            && (|batch| < PAGE_SIZE ==> left == [])
            && Collect(All(pending + Beyond(listed, after)), cursor, stop, p) ==
                 Collect(All(left), cursor, stop, Collect(All(computers), cursor, stop, p))
  {
    var batch := Listed(listed, after, PAGE_SIZE);
    var computers, left := pending + batch, Beyond(listed, after)[|batch|..];
    assert pending + Beyond(listed, after) == computers + left;
    hide All, Collect, Beyond, Ordered;
    if batch != [] {
      BatchMovesOn(listed, after, |batch|);
    }
    AllOn(computers, left);
    CollectOn(All(computers), All(left), cursor, stop, p);
    assert [] + Beyond(listed, Some(computers[|computers| - 1].id)) == left;
  }

  /** The agents of one computer, until the page is full. */
  method ReadComputer(c: Computer, cursor: Option<Key>, stop: Option<Key>, before: seq<Key>)
    returns (agents: seq<Key>, more: bool)
    ensures Progress(agents, more) == Collect(Visible(c.id, c.agents), cursor, stop, Progress(before, false))
  {
    var view := Visible(c.id, c.agents);
    agents, more := before, false;
    for i := 0 to |view|
      invariant !more
      invariant Collect(view, cursor, stop, Progress(before, false)) ==
          Collect(view[i..], cursor, stop, Progress(agents, more))
    {
      var key := view[i];
      assert view[i..][1..] == view[i + 1..];
      if cursor.Some? && !Below(cursor.value, key) {
        continue;
      }
      if stop.Some? && Below(stop.value, key) {
        more := true;
        return;
      }
      if stop.None? && |agents| == PAGE_SIZE {
        more := true;
        return;
      }
      agents := agents + [key];
    }
  }

  /** The computers of one batch, until the page is full. */
  method ReadBatch(computers: seq<Computer>, cursor: Option<Key>, stop: Option<Key>, before: seq<Key>)
    returns (agents: seq<Key>, more: bool)
    ensures Progress(agents, more) == Collect(All(computers), cursor, stop, Progress(before, false))
  {
    agents, more := before, false;
    for i := 0 to |computers|
      invariant !more
      invariant Collect(All(computers), cursor, stop, Progress(before, false))
             == Collect(All(computers[i..]), cursor, stop, Progress(agents, more))
    {
      var c := computers[i];
      assert computers[i..][1..] == computers[i + 1..];
      CollectOn(Visible(c.id, c.agents), All(computers[i + 1..]), cursor, stop, Progress(agents, more));
      agents, more := ReadComputer(c, cursor, stop, agents);
      if more {
        return;
      }
    }
  }

  lemma CollectNothing(cursor: Option<Key>, stop: Option<Key>, p: Progress)
    ensures Collect(All([]), cursor, stop, p) == p
    ensures p.more ==> forall keys :: Collect(keys, cursor, stop, p) == p
  {
  }

  /** `agent_page`. */
  method AgentPage(listed: seq<Computer>, after: Option<string>, until: Option<string>) returns (page: Page)
    requires Ordered(listed)
    ensures page == PageOf(All(listed), Cursor(after), Cursor(until))
  {
    hide All, Collect, Beyond, Own, Meet, Cursor, Ordered, EdgeText;
    var cursor, stop := Cursor(after), Cursor(until);
    var agents, more := [], false;
    var pending := if cursor.Some? then Own(listed, cursor.value.computer) else [];
    var lastId := if cursor.Some? then Some(cursor.value.computer) else None;
    ghost var whole := Collect(All(listed), cursor, stop, Progress([], false));
    FirstReads(listed, cursor, stop, Progress([], false));
    while true
      invariant !more
      invariant pending != [] ==> lastId == Some(pending[|pending| - 1].id)
      invariant whole == Collect(All(pending + Beyond(listed, lastId)), cursor, stop, Progress(agents, more))
      decreases |pending + Beyond(listed, lastId)|
    {
      var batch := Listed(listed, lastId, PAGE_SIZE);
      var computers := pending + batch;
      if computers == [] {
        NoneLeft(listed, lastId);
        CollectNothing(cursor, stop, Progress(agents, more));
        break;
      }
      BatchSplits(listed, pending, lastId, cursor, stop, Progress(agents, more));
      pending := [];
      lastId := Some(computers[|computers| - 1].id);
      agents, more := ReadBatch(computers, cursor, stop, agents);
      CollectNothing(cursor, stop, Progress(agents, more));
      if more || |batch| < PAGE_SIZE {
        break;
      }
    }
    CollectIsPage(listed, cursor, stop);
    page := Page(agents, if agents == [] then None else Some(EdgeText(agents[|agents| - 1])), more);
  }

  // ---- pages one after the other ----

  lemma {:induction false} RestIsSuffix(keys: seq<Key>, cursor: Option<Key>) returns (j: nat)
    requires Ascending(keys)
    ensures j <= |keys| && Rest(keys, cursor) == keys[j..]
    ensures forall i :: 0 <= i < |keys| ==> (Past(cursor, keys[i]) <==> j <= i)
  {
    if keys == [] {
      j := 0;
    } else {
      var k := RestIsSuffix(keys[1..], cursor);
      forall i | 0 < i < |keys| ensures Past(cursor, keys[i]) <==> k + 1 <= i {
        assert keys[i] == keys[1..][i - 1];
      }
      if Past(cursor, keys[0]) {
        if cursor.Some? && |keys| > 1 { BelowIsTransitive(cursor.value, keys[0], keys[1]); }
        j := 0;
      } else {
        j := k + 1;
      }
    }
  }

  lemma RestPastOne(keys: seq<Key>, i: nat)
    requires Ascending(keys) && i < |keys|
    ensures Rest(keys, Some(keys[i])) == keys[i + 1..]
  {
    var j := RestIsSuffix(keys, Some(keys[i]));
    BelowIsStrict(keys[i]);
  }

  lemma {:induction false} UpToOne(keys: seq<Key>, i: nat)
    requires Ascending(keys) && i < |keys|
    ensures UpTo(keys, keys[i]) == keys[..i + 1]
  {
    BelowIsStrict(keys[i]);
    if i == 0 {
      forall k | k in keys[1..] ensures Below(keys[0], k) {
        var j :| 0 <= j < |keys[1..]| && keys[1..][j] == k;
        assert keys[j + 1] == k;
      }
      NoneUpTo(keys[1..], keys[0]);
    } else {
      if Below(keys[i], keys[0]) { BelowIsTransitive(keys[i], keys[0], keys[i]); }
      UpToOne(keys[1..], i - 1);
    }
  }

  /** No key's computer has a slash in its id. */
  ghost predicate Readable(keys: seq<Key>) {
    forall k :: k in keys ==> '/' !in k.computer
  }

  /** Asking past a page's edge asks for exactly what that page left. */
  lemma EdgeMovesOn(keys: seq<Key>, cursor: Option<Key>)
    requires Ascending(keys) && Readable(keys)
    ensures var page := PageOf(keys, cursor, None);
            && Rest(keys, cursor) == page.agents + (if page.more then Rest(keys, Cursor(page.edge)) else [])
            && (page.more ==> |page.agents| == PAGE_SIZE)
  {
    hide EdgeText, KeyOf, Cursor, Below, Rest, Ascending;
    var page := PageOf(keys, cursor, None);
    var j := RestIsSuffix(keys, cursor);
    if page.more {
      var last := keys[j + PAGE_SIZE - 1];
      assert last in keys && page.agents[PAGE_SIZE - 1] == last;
      CursorReadsBack(last);
      RestPastOne(keys, j + PAGE_SIZE - 1);
      assert keys[j..] == keys[j..j + PAGE_SIZE] + keys[j + PAGE_SIZE..];
    }
  }

  /** The pages handed out by following each page's edge. */
  ghost function Walk(keys: seq<Key>, after: Option<string>): (pages: seq<Page>)
    requires Ascending(keys) && Readable(keys)
    ensures pages != []
    decreases |Rest(keys, Cursor(after))|
  {
    var page := PageOf(keys, Cursor(after), None);
    EdgeMovesOn(keys, Cursor(after));
    if page.more then [page] + Walk(keys, page.edge) else [page]
  }

  function Agents(pages: seq<Page>): seq<Key> {
    if pages == [] then [] else pages[0].agents + Agents(pages[1..])
  }

  lemma {:induction false} WalkVisitsRest(keys: seq<Key>, after: Option<string>)
    requires Ascending(keys) && Readable(keys)
    ensures Agents(Walk(keys, after)) == Rest(keys, Cursor(after))
    decreases |Rest(keys, Cursor(after))|
  {
    var page := PageOf(keys, Cursor(after), None);
    EdgeMovesOn(keys, Cursor(after));
    if page.more {
      WalkVisitsRest(keys, page.edge);
      assert Walk(keys, after)[1..] == Walk(keys, page.edge);
    } else {
      assert Agents([page]) == page.agents + Agents([]);
    }
  }

  /** Following edges from the start ends, having shown every agent once, in order. */
  lemma WalkVisitsAll(listed: seq<Computer>)
    requires Ordered(listed) && forall c :: c in listed ==> '/' !in c.id
    ensures Ascending(All(listed)) && Readable(All(listed))
    ensures Agents(Walk(All(listed), None)) == All(listed)
  {
    var keys := All(listed);
    AllIsAscending(listed);
    forall k | k in keys ensures '/' !in k.computer {
      var i :| 0 <= i < |listed| && listed[i].id == k.computer;
      assert listed[i] in listed;
    }
    WalkVisitsRest(keys, None);
    var j := RestIsSuffix(keys, None);
    assert keys != [] ==> Past(None, keys[0]);
  }

  /** Asking for everything up to the edge of the pages read so far gives those
      pages again, and knows whether there are more. */
  lemma RefreshIsSame(keys: seq<Key>, after: Option<string>)
    requires Ascending(keys) && Readable(keys)
    requires PageOf(keys, Cursor(after), None).agents != []
    ensures var page, seen := PageOf(keys, Cursor(after), None), |keys| - |Rest(keys, Cursor(after))|;
            var again := PageOf(keys, None, Cursor(page.edge));
            && 0 <= seen <= |keys| && again.agents == keys[..seen] + page.agents
            && again.more == page.more && again.edge == page.edge
  {
    hide EdgeText, KeyOf, Cursor, Below, Rest, UpTo, Ascending;
    var page := PageOf(keys, Cursor(after), None);
    var j := RestIsSuffix(keys, Cursor(after));
    var n := |page.agents|;
    var last := page.agents[n - 1];
    assert page.agents == keys[j..j + n] && last in keys;
    CursorReadsBack(last);
    var all := RestIsSuffix(keys, None);
    assert Past(None, keys[0]);
    assert keys[all..] == keys;
    UpToOne(keys, j + n - 1);
    assert keys[..j + n] == keys[..j] + page.agents;
  }
}
