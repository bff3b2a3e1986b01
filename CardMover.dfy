/**
 * The decision logic of the card mover action (index.js): choose the issue
 * set, stop early when there is nothing to move, derive the repository from
 * the first issue, select the target column, collect the project card ids
 * of every issue and plan one move per card.
 *
 * The three GraphQL calls are not performed here. The answers the server
 * gives are parameters: `columnsFor` answers the columns query for a
 * repository and project search, `cardsFor` answers the project-cards
 * query for an issue node id. A run is described by a `Trace`: the columns
 * query it sends (if any), the issue node ids it looks cards up for, and
 * its outcome.
 */
module CardMover {
  import opened Wrappers
  import JsArray
  import JsString
  import Json

  // ---------------------------------------------------------------------
  // Data model
  // ---------------------------------------------------------------------

  /** The fields of an issue object that the action reads. */
  datatype Issue = Issue(repositoryUrl: string, nodeId: string)

  /** The `issue` member of a payload entry: missing, `null`, or an issue. */
  datatype IssueField = Absent | Null | Present(issue: Issue)

  /**
   * One entry of the issue set: an event payload or an element of the
   * `issues` input. It is either `null` or an object with an `issue` member.
   */
  datatype Entry = NullEntry | Entry(issue: IssueField)

  /** The entry is an object whose `issue` is an issue. */
  predicate HasIssue(e: Entry)
  {
    e.Entry? && e.issue.Present?
  }

  function IssueOf(e: Entry): Issue
    requires HasIssue(e)
  {
    e.issue.issue
  }

  /** The triggering event's payload, which may be a single object or an array. */
  datatype Payload = PayloadArray(entries: seq<Entry>) | PayloadObject(entry: Entry)

  /**
   * The action's inputs after parsing: `issues` (already JSON-decoded),
   * `project-name`, `target-column` and `target-column-id`; an input that
   * was not given reads as the empty string.
   */
  datatype Config = Config(
    inputIssues: seq<Entry>,
    projectName: string,
    columnName: string,
    columnId: string)

  datatype Column = Column(id: string, name: string)

  /** One project returned by the columns query, with its columns in order. */
  datatype ProjectEdge = ProjectEdge(columns: seq<Column>)

  /**
   * The `node` of a project-cards answer: `null`, or an object whose
   * `projectCards` is missing or `null` (`None`) or lists card ids.
   */
  datatype CardNode = NullNode | Node(projectCards: Option<seq<string>>)

  /** The variables of the columns query; an undefined owner or repo is `None`. */
  datatype ColumnQuery = ColumnQuery(owner: Option<string>, repo: Option<string>, projectName: string)

  /** One `moveProjectCard` mutation request. */
  datatype Move = Move(cardId: string, columnId: string)

  /** How a run ends: nothing to do, failure with a message, or the moves it requested. */
  datatype Outcome = NoOp | Failed(message: string) | Moves(moves: seq<Move>)

  /** What a run asks of the server and how it ends. */
  datatype Trace = Trace(columnQuery: Option<ColumnQuery>, cardQueries: seq<string>, outcome: Outcome)

  // ---------------------------------------------------------------------
  // Failure messages
  // ---------------------------------------------------------------------

  // The TypeError messages that the JavaScript engine V8 reports, from
  // version 9.3 (Node.js 16.9) on, when a property of `undefined` or `null`
  // is read; the top-level catch turns them into the run's failure message.
  const ReadIssueOfUndefined := "Cannot read properties of undefined (reading 'issue')"
  const ReadIssueOfNull := "Cannot read properties of null (reading 'issue')"
  const ReadRepositoryUrlOfNull := "Cannot read properties of null (reading 'repository_url')"
  const ReadNodeIdOfUndefined := "Cannot read properties of undefined (reading 'node_id')"
  const ReadNodeIdOfNull := "Cannot read properties of null (reading 'node_id')"
  const ReadProjectCardsOfNull := "Cannot read properties of null (reading 'projectCards')"

  const NotFoundHeader := "Target column does not exist on project. Please use a different column selector:\ntarget-column: "
  const NotFoundIdLine := "\ntarget-column-id: "

  /** The failure reported when no column is selected, naming both selectors as JSON strings. */
  function NotFoundMessage(columnName: string, columnId: string): string
  {
    NotFoundHeader + Json.Quote(columnName) + NotFoundIdLine + Json.Quote(columnId)
  }

  /** Reads the two selectors back out of a column-not-found message. */
  function ParseNotFoundMessage(msg: string): Option<(string, string)>
  {
    var h := |NotFoundHeader|;
    if |msg| < h || msg[..h] != NotFoundHeader then None
    else match Json.DecodeString(msg[h..])
      case None => None
      case Some((name, rest)) =>
        var l := |NotFoundIdLine|;
        if |rest| < l || rest[..l] != NotFoundIdLine then None
        else match Json.DecodeString(rest[l..])
          case None => None
          case Some((id, tail)) => if tail == "" then Some((name, id)) else None
  }

  /** The column-not-found message names both selectors, and they can be read back from it. */
  lemma NotFoundMessageNamesSelectors(columnName: string, columnId: string)
    ensures ParseNotFoundMessage(NotFoundMessage(columnName, columnId)) == Some((columnName, columnId))
  {
    var msg := NotFoundMessage(columnName, columnId);
    var h := |NotFoundHeader|;
    var afterName := NotFoundIdLine + Json.Quote(columnId);
    assert msg[..h] == NotFoundHeader;
    assert msg[h..] == Json.Quote(columnName) + afterName;
    Json.QuoteRoundTrip(columnName, afterName);
    var l := |NotFoundIdLine|;
    assert afterName[..l] == NotFoundIdLine;
    assert afterName[l..] == Json.Quote(columnId) + "";
    Json.QuoteRoundTrip(columnId, "");
  }

  /** Different selector pairs give different messages. */
  lemma NotFoundMessageInjective(n1: string, i1: string, n2: string, i2: string)
    requires NotFoundMessage(n1, i1) == NotFoundMessage(n2, i2)
    ensures n1 == n2 && i1 == i2
  {
    NotFoundMessageNamesSelectors(n1, i1);
    NotFoundMessageNamesSelectors(n2, i2);
  }

  // ---------------------------------------------------------------------
  // The steps of a run
  // ---------------------------------------------------------------------

  /**
   * The `issues` input when it is non-empty, else the event payload as an
   * array (index.js:48-49). It is empty only when the input is empty and
   * the payload is an empty array.
   */
  function IssueSet(inputIssues: seq<Entry>, payload: Payload): (r: seq<Entry>)
    ensures |r| == 0 <==> |inputIssues| == 0 && payload == PayloadArray([])
  {
    if |inputIssues| > 0 then inputIssues
    else match payload
      case PayloadArray(entries) => entries
      case PayloadObject(entry) => [entry]
  }

  /**
   * `splitUrl[4]` and `splitUrl[5]` of `repository_url.split("/")`
   * (index.js:59-62): slash-free segments, undefined when the URL has too
   * few of them (see `RepoCoordinatesDefined`), and the repo is defined
   * only when the owner is.
   */
  function RepoCoordinates(url: string): (r: (Option<string>, Option<string>))
    ensures r.0.Some? ==> '/' !in r.0.value
    ensures r.1.Some? ==> '/' !in r.1.value
    ensures r.1.Some? ==> r.0.Some?
  {
    var parts := JsString.Split(url, '/');
    (JsArray.At(parts, 4), JsArray.At(parts, 5))
  }

  /**
   * The owner is undefined exactly when the URL has fewer than four slashes,
   * and the repo exactly when it has fewer than five.
   */
  lemma RepoCoordinatesDefined(url: string)
    ensures RepoCoordinates(url).0.None? <==> multiset(url)['/'] < 4
    ensures RepoCoordinates(url).1.None? <==> multiset(url)['/'] < 5
  {
    JsString.SplitCount(url, '/');
  }

  function ColumnQueryFor(url: string, projectName: string): ColumnQuery
  {
    var (owner, repo) := RepoCoordinates(url);
    ColumnQuery(owner, repo, projectName)
  }

  const ApiReposPrefix := "https://api.github.com/repos/"

  /** The separator-free segments of a REST API repository URL. */
  function ApiUrlSegments(owner: string, repo: string): seq<string>
  {
    ["https:", "", "api.github.com", "repos", owner, repo]
  }

  lemma ApiPrefixSegments()
    ensures ApiReposPrefix == "https:" + "/" + "" + "/" + "api.github.com" + "/" + "repos" + "/"
  {
  }

  lemma JoinApiUrlSegments(owner: string, repo: string)
    ensures JsString.Join(ApiUrlSegments(owner, repo), '/') == ApiReposPrefix + owner + "/" + repo
  {
    var parts := ApiUrlSegments(owner, repo);
    assert JsString.Join(parts[5..], '/') == repo;
    assert parts[4..][1..] == parts[5..];
    assert JsString.Join(parts[4..], '/') == owner + "/" + repo;
    assert parts[3..][1..] == parts[4..];
    assert JsString.Join(parts[3..], '/') == "repos" + "/" + owner + "/" + repo;
    assert parts[2..][1..] == parts[3..];
    assert JsString.Join(parts[2..], '/') == "api.github.com" + "/" + "repos" + "/" + owner + "/" + repo;
    assert parts[1..][1..] == parts[2..];
    assert JsString.Join(parts[1..], '/') == "" + "/" + "api.github.com" + "/" + "repos" + "/" + owner + "/" + repo;
    assert JsString.Join(parts, '/') == "https:" + "/" + "" + "/" + "api.github.com" + "/" + "repos" + "/" + owner + "/" + repo;
    ApiPrefixSegments();
  }

  /**
   * For a REST API repository URL `https://api.github.com/repos/{owner}/{repo}`,
   * possibly followed by further path segments, the owner and repo are
   * those two segments.
   */
  lemma ApiUrlCoordinates(owner: string, repo: string, tail: string)
    requires '/' !in owner && '/' !in repo
    requires tail == "" || tail[0] == '/'
    ensures RepoCoordinates(ApiReposPrefix + owner + "/" + repo + tail) == (Some(owner), Some(repo))
  {
    var parts := ApiUrlSegments(owner, repo);
    var joined := JsString.Join(parts, '/');
    JoinApiUrlSegments(owner, repo);
    assert forall i :: 0 <= i < |parts| ==> '/' !in parts[i];
    JsString.SplitJoin(parts, '/');
    if tail == "" {
      assert ApiReposPrefix + owner + "/" + repo + tail == joined;
    } else {
      assert ApiReposPrefix + owner + "/" + repo + tail == joined + ['/'] + tail[1..];
      JsString.SplitAround(joined, tail[1..], '/');
    }
  }

  /** Example: `https://api.github.com/repos/o/r` gives owner `o` and repo `r`. */
  lemma ApiUrlExample()
    ensures RepoCoordinates("https://api.github.com/repos/o/r") == (Some("o"), Some("r"))
  {
    ApiUrlCoordinates("o", "r", "");
    assert ApiReposPrefix + "o" + "/" + "r" + "" == "https://api.github.com/repos/o/r";
  }

  function ColumnsOf(p: ProjectEdge): seq<Column>
  {
    p.columns
  }

  /** The candidate columns: every project's columns, in order (index.js:66-68). */
  function Columns(edges: seq<ProjectEdge>): seq<Column>
  {
    JsArray.FlatMap(edges, ColumnsOf)
  }

  /** The candidate columns of several answers are those of each answer, one after the other. */
  lemma ColumnsAppend(e1: seq<ProjectEdge>, e2: seq<ProjectEdge>)
    ensures Columns(e1 + e2) == Columns(e1) + Columns(e2)
  {
    JsArray.FlatMapAppend(e1, e2, ColumnsOf);
  }

  /** A column is a candidate exactly when some returned project has it. */
  lemma ColumnsMember(edges: seq<ProjectEdge>, c: Column)
    ensures c in Columns(edges) <==> exists i :: 0 <= i < |edges| && c in edges[i].columns
  {
    JsArray.FlatMapMember(edges, ColumnsOf, c);
  }

  /**
   * Whether column `c` is the one asked for: by exact id when
   * `target-column-id` is non-empty (a truthy string), otherwise by name
   * ignoring case (index.js:70-72).
   */
  predicate Selects(c: Column, columnName: string, columnId: string)
  {
    if columnId != "" then c.id == columnId else JsString.EqualsIgnoreCase(c.name, columnName)
  }

  function HasId(columnId: string): Column -> bool
  {
    (c: Column) => c.id == columnId
  }

  function HasName(columnName: string): Column -> bool
  {
    (c: Column) => JsString.EqualsIgnoreCase(c.name, columnName)
  }

  /** The target column: the first candidate that the selectors pick, if any (index.js:70-72). */
  function SelectColumn(columns: seq<Column>, columnName: string, columnId: string): (r: Option<Column>)
    ensures r.None? <==> forall j :: 0 <= j < |columns| ==> !Selects(columns[j], columnName, columnId)
    ensures r.Some? ==> exists k :: 0 <= k < |columns| && columns[k] == r.value
                                 && Selects(r.value, columnName, columnId)
                                 && forall j :: 0 <= j < k ==> !Selects(columns[j], columnName, columnId)
  {
    var p := if columnId != "" then HasId(columnId) else HasName(columnName);
    assert forall c :: p(c) == Selects(c, columnName, columnId);
    JsArray.Find(columns, p)
  }

  /** Two selections that agree column by column select the same column. */
  lemma SameSelection(columns: seq<Column>, n1: string, i1: string, n2: string, i2: string)
    requires forall j :: 0 <= j < |columns| ==> (Selects(columns[j], n1, i1) <==> Selects(columns[j], n2, i2))
    ensures SelectColumn(columns, n1, i1) == SelectColumn(columns, n2, i2)
  {
  }

  /** With a column id given, the column name plays no part in the selection. */
  lemma IdSelectionIgnoresName(columns: seq<Column>, n1: string, n2: string, columnId: string)
    requires columnId != ""
    ensures SelectColumn(columns, n1, columnId) == SelectColumn(columns, n2, columnId)
  {
    SameSelection(columns, n1, columnId, n2, columnId);
  }

  /** Without a column id, column names that differ only in case select the same column. */
  lemma NameSelectionIgnoresCase(columns: seq<Column>, n1: string, n2: string)
    requires JsString.EqualsIgnoreCase(n1, n2)
    ensures SelectColumn(columns, n1, "") == SelectColumn(columns, n2, "")
  {
    SameSelection(columns, n1, "", n2, "");
  }

  /** Example: `target-column: "To Do"` selects a column named "to do". */
  lemma ToDoSelectsLowerCaseColumn(id: string)
    ensures SelectColumn([Column(id, "to do")], "To Do", "") == Some(Column(id, "to do"))
  {
    JsString.ToDoMatchesLowerCase();
  }

  /**
   * `issues.map((i) => i.issue.node_id)` (index.js:75): the node id of every
   * issue, or the TypeError of the first entry that is null or whose
   * `issue` is missing or null.
   */
  function NodeIds(issues: seq<Entry>): (r: Result<seq<string>>)
    ensures r.Ok? <==> forall k :: 0 <= k < |issues| ==> HasIssue(issues[k])
    ensures r.Ok? ==> |r.value| == |issues|
    ensures r.Ok? ==> forall k :: 0 <= k < |issues| ==> r.value[k] == IssueOf(issues[k]).nodeId
  {
    if |issues| == 0 then Ok([])
    else match issues[0]
      case NullEntry => Err(ReadIssueOfNull)
      case Entry(Absent) => Err(ReadNodeIdOfUndefined)
      case Entry(Null) => Err(ReadNodeIdOfNull)
      case Entry(Present(issue)) =>
        match NodeIds(issues[1..])
        case Err(m) => Err(m)
        case Ok(ids) => Ok([issue.nodeId] + ids)
  }

  /**
   * The entries before position `k` have issues and the entry at `k` is
   * null: the `map` throws on reading `issue` of that null entry.
   */
  lemma {:induction false} NodeIdsFailOnNullEntry(issues: seq<Entry>, k: nat)
    requires k < |issues| && issues[k].NullEntry?
    requires forall j :: 0 <= j < k ==> HasIssue(issues[j])
    ensures NodeIds(issues) == Err(ReadIssueOfNull)
  {
    if k > 0 {
      assert HasIssue(issues[0]);
      NodeIdsFailOnNullEntry(issues[1..], k - 1);
    }
  }

  /** `node.projectCards != null`: the node lists cards (index.js:80). */
  function HasCards(n: CardNode): bool
  {
    n.Node? && n.projectCards.Some?
  }

  function CardsOf(n: CardNode): seq<string>
  {
    if HasCards(n) then n.projectCards.value else []
  }

  /**
   * The card ids of all issues, in issue order, skipping nodes whose
   * `projectCards` is null (index.js:77-82). A null node makes the filter
   * throw.
   */
  function CardIds(nodes: seq<CardNode>): Result<seq<string>>
  {
    if NullNode in nodes then Err(ReadProjectCardsOfNull)
    else Ok(JsArray.FlatMap(JsArray.Filter(nodes, HasCards), CardsOf))
  }

  /**
   * Skipping the nodes without cards is the same as giving them no cards:
   * the card ids are every node's cards concatenated in order.
   */
  lemma CardIdsInOrder(nodes: seq<CardNode>)
    requires NullNode !in nodes
    ensures CardIds(nodes) == Ok(JsArray.FlatMap(nodes, CardsOf))
  {
    JsArray.FilterFlatMap(nodes, HasCards, CardsOf);
  }

  /** The card ids of a longer issue list extend those of its prefix. */
  lemma CardIdsAppend(n1: seq<CardNode>, n2: seq<CardNode>)
    requires NullNode !in n1 && NullNode !in n2
    ensures CardIds(n1 + n2) == Ok(CardIds(n1).value + CardIds(n2).value)
  {
    CardIdsInOrder(n1);
    CardIdsInOrder(n2);
    CardIdsInOrder(n1 + n2);
    JsArray.FlatMapAppend(n1, n2, CardsOf);
  }

  /** An id is collected exactly when some node lists it among its project cards. */
  lemma CardIdsMember(nodes: seq<CardNode>, id: string)
    requires NullNode !in nodes
    ensures id in CardIds(nodes).value <==>
      exists i :: 0 <= i < |nodes| && nodes[i].Node? && nodes[i].projectCards.Some?
        && id in nodes[i].projectCards.value
  {
    CardIdsInOrder(nodes);
    JsArray.FlatMapMember(nodes, CardsOf, id);
  }

  /** Any null node makes the card collection fail. */
  lemma CardIdsFailOnNullNode(nodes: seq<CardNode>)
    ensures CardIds(nodes).Err? <==> exists i :: 0 <= i < |nodes| && nodes[i].NullNode?
  {
  }

  /**
   * Three issues: the first with `projectCards` null, the second with an
   * empty card list and the third with two cards. Exactly the third issue's
   * two cards are collected.
   */
  lemma CardIdsExample(c1: string, c2: string)
    ensures CardIds([Node(None), Node(Some([])), Node(Some([c1, c2]))]) == Ok([c1, c2])
  {
    var none, empty, two := [Node(None)], [Node(Some([]))], [Node(Some([c1, c2]))];
    JsArray.FlatMapSingleton(Node(None), CardsOf);
    JsArray.FlatMapSingleton(Node(Some([])), CardsOf);
    JsArray.FlatMapSingleton(Node(Some([c1, c2])), CardsOf);
    CardIdsInOrder(none);
    CardIdsInOrder(empty);
    CardIdsInOrder(two);
    CardIdsAppend(empty, two);
    assert CardIds(empty + two).value == [] + [c1, c2] == [c1, c2];
    assert CardIds(none).value == [];
    CardIdsAppend(none, empty + two);
    assert none + (empty + two) == [Node(None), Node(Some([])), Node(Some([c1, c2]))];
  }

  /** One move per card id, in order, each to the target column (index.js:100-103). */
  function MovePlan(cardIds: seq<string>, columnId: string): seq<Move>
  {
    seq(|cardIds|, k requires 0 <= k < |cardIds| => Move(cardIds[k], columnId))
  }

  // ---------------------------------------------------------------------
  // A whole run
  // ---------------------------------------------------------------------

  /**
   * A run of the action (index.js:40-107) given the server's answers.
   * The target column is selected before the card lookups, but the
   * not-found check comes after them, so a missing column still costs
   * one card query per issue.
   */
  function Plan(
    cfg: Config, payload: Payload,
    columnsFor: ColumnQuery -> seq<ProjectEdge>, cardsFor: string -> CardNode): (r: Trace)
    ensures r.columnQuery.None? ==> r.cardQueries == [] && !r.outcome.Moves?
    ensures r.outcome.Moves? ==> |r.cardQueries| == |IssueSet(cfg.inputIssues, payload)|
  {
    var issues := IssueSet(cfg.inputIssues, payload);
    if |issues| == 0 then Trace(None, [], Failed(ReadIssueOfUndefined))
    else if issues[0].NullEntry? then Trace(None, [], Failed(ReadIssueOfNull))
    else match issues[0].issue
      case Absent => Trace(None, [], NoOp)
      case Null => Trace(None, [], Failed(ReadRepositoryUrlOfNull))
      case Present(first) =>
        var query := ColumnQueryFor(first.repositoryUrl, cfg.projectName);
        var target := SelectColumn(Columns(columnsFor(query)), cfg.columnName, cfg.columnId);
        match NodeIds(issues)
        case Err(m) => Trace(Some(query), [], Failed(m))
        case Ok(ids) =>
          match CardIds(JsArray.Map(ids, cardsFor))
          case Err(m) => Trace(Some(query), ids, Failed(m))
          case Ok(cardIds) =>
            match target
            case None => Trace(Some(query), ids, Failed(NotFoundMessage(cfg.columnName, cfg.columnId)))
            case Some(column) => Trace(Some(query), ids, Moves(MovePlan(cardIds, column.id)))
  }

  /**
   * The driver as a step-by-step procedure with early returns and a loop
   * that requests one move per card id; it does exactly what `Plan` says.
   */
  method Execute(
    cfg: Config, payload: Payload,
    columnsFor: ColumnQuery -> seq<ProjectEdge>, cardsFor: string -> CardNode)
    returns (t: Trace)
    ensures t == Plan(cfg, payload, columnsFor, cardsFor)
  {
    var issues := IssueSet(cfg.inputIssues, payload);
    if |issues| == 0 {
      return Trace(None, [], Failed(ReadIssueOfUndefined));
    }
    if issues[0].NullEntry? {
      return Trace(None, [], Failed(ReadIssueOfNull));
    }
    if issues[0].issue.Absent? {
      return Trace(None, [], NoOp);
    }
    if issues[0].issue.Null? {
      return Trace(None, [], Failed(ReadRepositoryUrlOfNull));
    }
    var query := ColumnQueryFor(issues[0].issue.issue.repositoryUrl, cfg.projectName);
    var columns := Columns(columnsFor(query));
    var target := SelectColumn(columns, cfg.columnName, cfg.columnId);

    var issueIds := NodeIds(issues);
    if issueIds.Err? {
      return Trace(Some(query), [], Failed(issueIds.message));
    }
    var ids := issueIds.value;
    var cardIds := CardIds(JsArray.Map(ids, cardsFor));
    if cardIds.Err? {
      return Trace(Some(query), ids, Failed(cardIds.message));
    }

    if target.None? {
      return Trace(Some(query), ids, Failed(NotFoundMessage(cfg.columnName, cfg.columnId)));
    }
    var targetColumnId := target.value.id;
    var moves: seq<Move> := [];
    for i := 0 to |cardIds.value|
      invariant |moves| == i
      invariant forall k :: 0 <= k < i ==> moves[k] == Move(cardIds.value[k], targetColumnId)
    {
      moves := moves + [Move(cardIds.value[i], targetColumnId)];
    }
    assert moves == MovePlan(cardIds.value, targetColumnId);
    return Trace(Some(query), ids, Moves(moves));
  }
}
