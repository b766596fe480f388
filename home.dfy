/**
 * The home page of the Redux example (examples/redux/src/app/Home.js): the
 * reducer that stores the fetched article list, and the page's choice
 * between suspending on the list fetch and rendering one link per article.
 */
module HomePage {
  import opened Js
  import opened Actions

  /** The `articleList` slice of the store: the list, and any other fields a
      preloaded state may carry (their values abstracted as text). */
  datatype ArticleListState = ArticleListState(articles: seq<ListedArticle>, others: map<string, string>)

  const InitialState: ArticleListState := ArticleListState([], map[])

  /** articleListReducer. A missing state (`undefined`) starts from the
      initial state, whose list is empty. */
  function ArticleListReducer(state: Option<ArticleListState>, action: Action): (r: ArticleListState)
    ensures var s := state.GetOr(InitialState);
      && (action.ArticleListSuccess? ==> r.articles == action.payload && r.others == s.others)
      && (!action.ArticleListSuccess? ==> r == s)
  {
    var s := state.GetOr(InitialState);
    match action
    case ArticleListSuccess(payload) => s.(articles := payload)
    case _ => s
  }

  /** Dispatching the same action twice leaves the state as dispatching it once. */
  lemma ArticleListReducerIdempotent(s: ArticleListState, action: Action)
    ensures ArticleListReducer(Some(ArticleListReducer(Some(s), action)), action)
         == ArticleListReducer(Some(s), action)
  {
  }

  /** `<li key={key}><Link to={to}>{text}</Link></li>` */
  datatype ListItem = ListItem(key: nat, to: string, text: string)

  /** What the page does. */
  datatype HomeOutcome =
    | SuspendFetchArticles          // throws the promise of fetchArticles()
    | ArticleList(items: seq<ListItem>)

  /** `articles.map((article, i) => <li …>)`, numbering keys from `first`. */
  function ListItems(articles: seq<ListedArticle>, first: nat): (items: seq<ListItem>)
    ensures |items| == |articles|
    ensures forall i :: 0 <= i < |articles| ==>
      items[i] == ListItem(first + i, "/" + articles[i].id, articles[i].title)
  {
    if articles == [] then []
    else [ListItem(first, "/" + articles[0].id, articles[0].title)] + ListItems(articles[1..], first + 1)
  }

  /** Home: an empty list throws the list fetch; otherwise the page renders
      one item per article, in list order, keyed by position and linking to
      the article's id. */
  function Home(list: ArticleListState): (outcome: HomeOutcome)
    ensures outcome.SuspendFetchArticles? <==> |list.articles| == 0
    ensures outcome.ArticleList? ==>
      && |outcome.items| == |list.articles|
      && forall i :: 0 <= i < |list.articles| ==>
           outcome.items[i] == ListItem(i, "/" + list.articles[i].id, list.articles[i].title)
  {
    if |list.articles| == 0 then SuspendFetchArticles
    else ArticleList(ListItems(list.articles, 0))
  }

  /** After the list arrives, the page renders it, unless the list is empty:
      then it throws the fetch again. */
  lemma ListArrivalSettlesHome(s: ArticleListState, payload: seq<ListedArticle>)
    ensures var r := ArticleListReducer(Some(s), ArticleListSuccess(payload));
      && (Home(r).SuspendFetchArticles? <==> payload == [])
      && (payload != [] ==>
            && |Home(r).items| == |payload|
            && forall i :: 0 <= i < |payload| ==>
                 Home(r).items[i] == ListItem(i, "/" + payload[i].id, payload[i].title))
  {
  }
}
