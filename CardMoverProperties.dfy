/**
 * Properties of a whole run of the card mover, stated over `Plan` and
 * therefore, through `Execute`'s postcondition, over the driver.
 */
module CardMoverProperties {
  import opened Wrappers
  import JsArray
  import JsString
  import opened CardMover

  function CardIdOf(m: Move): string
  {
    m.cardId
  }

  /** A non-empty `issues` input is used as it is and the event payload is ignored. */
  lemma InputIssuesTakePrecedence(
    cfg: Config, p1: Payload, p2: Payload,
    columnsFor: ColumnQuery -> seq<ProjectEdge>, cardsFor: string -> CardNode)
    requires |cfg.inputIssues| > 0
    ensures IssueSet(cfg.inputIssues, p1) == cfg.inputIssues
    ensures Plan(cfg, p1, columnsFor, cardsFor) == Plan(cfg, p2, columnsFor, cardsFor)
  {
  }

  /** With an empty `issues` input, a single-object payload behaves as a one-element array. */
  lemma ObjectPayloadIsWrapped(
    cfg: Config, e: Entry,
    columnsFor: ColumnQuery -> seq<ProjectEdge>, cardsFor: string -> CardNode)
    requires |cfg.inputIssues| == 0
    ensures IssueSet(cfg.inputIssues, PayloadObject(e)) == [e]
    ensures Plan(cfg, PayloadObject(e), columnsFor, cardsFor) == Plan(cfg, PayloadArray([e]), columnsFor, cardsFor)
  {
  }

  /** With an empty `issues` input, an array payload is the issue set as it is. */
  lemma ArrayPayloadIsUsed(cfg: Config, entries: seq<Entry>)
    requires |cfg.inputIssues| == 0
    ensures IssueSet(cfg.inputIssues, PayloadArray(entries)) == entries
  {
  }

  /**
   * A run is a no-op exactly when the first entry has no `issue`; a no-op
   * sends no query at all and moves nothing.
   */
  lemma NoOpExactlyWithoutIssue(
    cfg: Config, payload: Payload,
    columnsFor: ColumnQuery -> seq<ProjectEdge>, cardsFor: string -> CardNode)
    ensures var issues := IssueSet(cfg.inputIssues, payload);
            Plan(cfg, payload, columnsFor, cardsFor).outcome.NoOp? <==>
            |issues| > 0 && issues[0].Entry? && issues[0].issue.Absent?
    ensures Plan(cfg, payload, columnsFor, cardsFor).outcome.NoOp? ==>
            Plan(cfg, payload, columnsFor, cardsFor) == Trace(None, [], NoOp)
  {
  }

  /**
   * A null entry in the issue set, with issues in every entry before it,
   * makes the run fail with the TypeError of reading `issue` of null,
   * before any card query and without moves. When it is the first entry,
   * no columns query is sent either.
   */
  lemma NullEntryFails(
    cfg: Config, payload: Payload,
    columnsFor: ColumnQuery -> seq<ProjectEdge>, cardsFor: string -> CardNode, k: nat)
    requires k < |IssueSet(cfg.inputIssues, payload)| && IssueSet(cfg.inputIssues, payload)[k].NullEntry?
    requires forall j :: 0 <= j < k ==> HasIssue(IssueSet(cfg.inputIssues, payload)[j])
    ensures Plan(cfg, payload, columnsFor, cardsFor).outcome == Failed(ReadIssueOfNull)
    ensures Plan(cfg, payload, columnsFor, cardsFor).cardQueries == []
    ensures k == 0 <==> Plan(cfg, payload, columnsFor, cardsFor).columnQuery.None?
  {
    NodeIdsFailOnNullEntry(IssueSet(cfg.inputIssues, payload), k);
  }

  /**
   * When the first issue's `repository_url` is a REST API repository URL,
   * the columns query asks for that owner and repo and the configured
   * project name.
   */
  lemma ColumnQueryNamesRepository(
    cfg: Config, payload: Payload,
    columnsFor: ColumnQuery -> seq<ProjectEdge>, cardsFor: string -> CardNode,
    owner: string, repo: string, tail: string)
    requires '/' !in owner && '/' !in repo
    requires tail == "" || tail[0] == '/'
    requires |IssueSet(cfg.inputIssues, payload)| > 0
    requires HasIssue(IssueSet(cfg.inputIssues, payload)[0])
    requires IssueOf(IssueSet(cfg.inputIssues, payload)[0]).repositoryUrl == ApiReposPrefix + owner + "/" + repo + tail
    ensures Plan(cfg, payload, columnsFor, cardsFor).columnQuery
            == Some(ColumnQuery(Some(owner), Some(repo), cfg.projectName))
  {
    ApiUrlCoordinates(owner, repo, tail);
  }

  /**
   * When no column is selected the run fails with a message naming both
   * selectors, after one card query per issue, and moves nothing.
   */
  lemma MissingColumnFails(
    cfg: Config, payload: Payload,
    columnsFor: ColumnQuery -> seq<ProjectEdge>, cardsFor: string -> CardNode)
    requires |IssueSet(cfg.inputIssues, payload)| > 0
    requires forall k :: 0 <= k < |IssueSet(cfg.inputIssues, payload)| ==> HasIssue(IssueSet(cfg.inputIssues, payload)[k])
    requires forall k :: 0 <= k < |IssueSet(cfg.inputIssues, payload)| ==>
               cardsFor(IssueOf(IssueSet(cfg.inputIssues, payload)[k]).nodeId).Node?
    requires var query := ColumnQueryFor(IssueOf(IssueSet(cfg.inputIssues, payload)[0]).repositoryUrl, cfg.projectName);
             SelectColumn(Columns(columnsFor(query)), cfg.columnName, cfg.columnId).None?
    ensures var t := Plan(cfg, payload, columnsFor, cardsFor);
            t.outcome.Failed?
            && ParseNotFoundMessage(t.outcome.message) == Some((cfg.columnName, cfg.columnId))
            && t.cardQueries == NodeIds(IssueSet(cfg.inputIssues, payload)).value
  {
    var issues := IssueSet(cfg.inputIssues, payload);
    var ids := NodeIds(issues).value;
    var nodes := JsArray.Map(ids, cardsFor);
    assert NullNode !in nodes by {
      forall i | 0 <= i < |nodes|
        ensures nodes[i] != NullNode
      {
        assert nodes[i] == cardsFor(IssueOf(issues[i]).nodeId);
      }
    }
    NotFoundMessageNamesSelectors(cfg.columnName, cfg.columnId);
  }

  /**
   * When every entry has an issue, every card query returns a node and a
   * column is selected, the run requests one move per card id of the
   * issues, in issue order, each to that column.
   */
  lemma SelectedColumnMoves(
    cfg: Config, payload: Payload,
    columnsFor: ColumnQuery -> seq<ProjectEdge>, cardsFor: string -> CardNode, column: Column)
    requires |IssueSet(cfg.inputIssues, payload)| > 0
    requires forall k :: 0 <= k < |IssueSet(cfg.inputIssues, payload)| ==> HasIssue(IssueSet(cfg.inputIssues, payload)[k])
    requires forall k :: 0 <= k < |IssueSet(cfg.inputIssues, payload)| ==>
               cardsFor(IssueOf(IssueSet(cfg.inputIssues, payload)[k]).nodeId).Node?
    requires var query := ColumnQueryFor(IssueOf(IssueSet(cfg.inputIssues, payload)[0]).repositoryUrl, cfg.projectName);
             SelectColumn(Columns(columnsFor(query)), cfg.columnName, cfg.columnId) == Some(column)
    ensures var issues := IssueSet(cfg.inputIssues, payload);
            var nodes := JsArray.Map(NodeIds(issues).value, cardsFor);
            Plan(cfg, payload, columnsFor, cardsFor).outcome
            == Moves(MovePlan(JsArray.FlatMap(nodes, CardsOf), column.id))
  {
    var issues := IssueSet(cfg.inputIssues, payload);
    var ids := NodeIds(issues).value;
    var nodes := JsArray.Map(ids, cardsFor);
    assert NullNode !in nodes by {
      forall i | 0 <= i < |nodes|
        ensures nodes[i] != NullNode
      {
        assert nodes[i] == cardsFor(IssueOf(issues[i]).nodeId);
      }
    }
    CardIdsInOrder(nodes);
  }

  /**
   * A run that moves cards had a selected column, looked up the cards of
   * every issue, and requests exactly one move per collected card: the
   * cards of all issues concatenated in issue order (an issue without
   * project cards contributes none), each to the selected column's id.
   */
  lemma MovesAreTheIssuesCards(
    cfg: Config, payload: Payload,
    columnsFor: ColumnQuery -> seq<ProjectEdge>, cardsFor: string -> CardNode)
    requires Plan(cfg, payload, columnsFor, cardsFor).outcome.Moves?
    ensures var issues := IssueSet(cfg.inputIssues, payload);
            var t := Plan(cfg, payload, columnsFor, cardsFor);
            |issues| > 0
            && (forall k :: 0 <= k < |issues| ==> HasIssue(issues[k]))
            && t.cardQueries == NodeIds(issues).value
            && t.columnQuery == Some(ColumnQueryFor(IssueOf(issues[0]).repositoryUrl, cfg.projectName))
            && var target := SelectColumn(Columns(columnsFor(t.columnQuery.value)), cfg.columnName, cfg.columnId);
            target.Some?
            && (forall k :: 0 <= k < |t.outcome.moves| ==> t.outcome.moves[k].columnId == target.value.id)
            && JsArray.Map(t.outcome.moves, CardIdOf)
               == JsArray.FlatMap(JsArray.Map(t.cardQueries, cardsFor), CardsOf)
  {
    var t := Plan(cfg, payload, columnsFor, cardsFor);
    var nodes := JsArray.Map(t.cardQueries, cardsFor);
    CardIdsInOrder(nodes);
    var cardIds := JsArray.FlatMap(nodes, CardsOf);
    assert JsArray.Map(t.outcome.moves, CardIdOf) == cardIds;
  }

  /**
   * The round trip of moved and returned cards: a card id is moved exactly
   * when the card query of some issue returned it.
   */
  lemma MovedCardsAreReturnedCards(
    cfg: Config, payload: Payload,
    columnsFor: ColumnQuery -> seq<ProjectEdge>, cardsFor: string -> CardNode, id: string)
    requires Plan(cfg, payload, columnsFor, cardsFor).outcome.Moves?
    ensures var issues := IssueSet(cfg.inputIssues, payload);
            var moves := Plan(cfg, payload, columnsFor, cardsFor).outcome.moves;
            (exists k :: 0 <= k < |moves| && moves[k].cardId == id) <==>
            exists i :: 0 <= i < |issues| && HasIssue(issues[i])
                        && id in CardsOf(cardsFor(IssueOf(issues[i]).nodeId))
  {
    var issues := IssueSet(cfg.inputIssues, payload);
    var t := Plan(cfg, payload, columnsFor, cardsFor);
    MovesAreTheIssuesCards(cfg, payload, columnsFor, cardsFor);
    var nodes := JsArray.Map(t.cardQueries, cardsFor);
    var moved := JsArray.Map(t.outcome.moves, CardIdOf);
    JsArray.FlatMapMember(nodes, CardsOf, id);
    if exists k :: 0 <= k < |t.outcome.moves| && t.outcome.moves[k].cardId == id {
      var k :| 0 <= k < |t.outcome.moves| && t.outcome.moves[k].cardId == id;
      assert moved[k] == id;
      var i :| 0 <= i < |nodes| && id in CardsOf(nodes[i]);
      assert nodes[i] == cardsFor(IssueOf(issues[i]).nodeId);
    }
    if exists i :: 0 <= i < |issues| && HasIssue(issues[i])
                   && id in CardsOf(cardsFor(IssueOf(issues[i]).nodeId)) {
      var i :| 0 <= i < |issues| && HasIssue(issues[i])
               && id in CardsOf(cardsFor(IssueOf(issues[i]).nodeId));
      assert nodes[i] == cardsFor(IssueOf(issues[i]).nodeId);
      assert id in moved;
      var k :| 0 <= k < |moved| && moved[k] == id;
      assert t.outcome.moves[k].cardId == id;
    }
  }

  /**
   * Two issues, the first with an empty card list and the second with two,
   * and a column that is selected: exactly two moves are requested, for the
   * second issue's cards, to that column.
   */
  lemma TwoIssuesExample(
    cfg: Config, payload: Payload,
    columnsFor: ColumnQuery -> seq<ProjectEdge>, cardsFor: string -> CardNode,
    i1: Issue, i2: Issue, c1: string, c2: string, column: Column)
    requires cfg.inputIssues == [Entry(Present(i1)), Entry(Present(i2))]
    requires cardsFor(i1.nodeId) == Node(Some([]))
    requires cardsFor(i2.nodeId) == Node(Some([c1, c2]))
    requires SelectColumn(Columns(columnsFor(ColumnQueryFor(i1.repositoryUrl, cfg.projectName))),
                          cfg.columnName, cfg.columnId) == Some(column)
    ensures Plan(cfg, payload, columnsFor, cardsFor)
            == Trace(Some(ColumnQueryFor(i1.repositoryUrl, cfg.projectName)),
                     [i1.nodeId, i2.nodeId],
                     Moves([Move(c1, column.id), Move(c2, column.id)]))
  {
    var issues := IssueSet(cfg.inputIssues, payload);
    assert issues == [Entry(Present(i1)), Entry(Present(i2))];
    assert NodeIds(issues).Ok?;
    assert NodeIds(issues).value == [i1.nodeId, i2.nodeId];
    var nodes := JsArray.Map([i1.nodeId, i2.nodeId], cardsFor);
    assert nodes == [Node(Some([]))] + [Node(Some([c1, c2]))];
    CardIdsAppend([Node(Some([]))], [Node(Some([c1, c2]))]);
    CardIdsInOrder([Node(Some([]))]);
    CardIdsInOrder([Node(Some([c1, c2]))]);
    JsArray.FlatMapSingleton(Node(Some([])), CardsOf);
    JsArray.FlatMapSingleton(Node(Some([c1, c2])), CardsOf);
    assert CardIds([Node(Some([]))]).value + CardIds([Node(Some([c1, c2]))]).value == [] + [c1, c2] == [c1, c2];
    assert CardIds(nodes) == Ok([c1, c2]);
    assert MovePlan([c1, c2], column.id) == [Move(c1, column.id), Move(c2, column.id)];
  }
}
