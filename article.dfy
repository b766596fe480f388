/**
 * The article page of the Redux example (examples/redux/src/app/Article.js):
 * the reducer that records each fetched article (or the fetch's error) under
 * its id, and the page's choice between suspending on a fetch, an error
 * view, and the article itself.
 */
module ArticlePage {
  import opened Js
  import opened Actions

  /** The `articles` slice of the store: what has been stored per article id. */
  type ArticleState = map<string, Stored>

  const InitialState: ArticleState := map[]

  /** `after` is `before` with `id` set to `value` and every other entry kept. */
  ghost predicate StoredUnder(before: ArticleState, after: ArticleState, id: string, value: Stored) {
    && after.Keys == before.Keys + {id}
    && after[id] == value
    && forall k :: k in before && k != id ==> after[k] == before[k]
  }

  /** articleReducer. A missing state (`undefined`) starts from the empty map. */
  function ArticleReducer(state: Option<ArticleState>, action: Action): (r: ArticleState)
    ensures var s := state.GetOr(InitialState);
      && (action.ArticleSuccess? ==> StoredUnder(s, r, action.id, action.data))
      && (action.ArticleError? ==> StoredUnder(s, r, action.id, action.error))
      && (!action.ArticleSuccess? && !action.ArticleError? ==> r == s)
  {
    var s := state.GetOr(InitialState);
    match action
    case ArticleSuccess(id, data) => s[id := data]
    case ArticleError(id, error) => s[id := error]
    case _ => s
  }

  /** Dispatching the same action twice leaves the state as dispatching it once. */
  lemma ArticleReducerIdempotent(s: ArticleState, action: Action)
    ensures ArticleReducer(Some(ArticleReducer(Some(s), action)), action) == ArticleReducer(Some(s), action)
  {
  }

  /** The members every object inherits from `Object.prototype`. Reading one
      of these names from an object that has no own entry for it gives the
      inherited function (or, for `__proto__`, the prototype object): a truthy
      value without a `title` or a `body`. */
  const InheritedNames: set<string> := {
    "constructor", "hasOwnProperty", "isPrototypeOf", "propertyIsEnumerable",
    "toLocaleString", "toString", "valueOf", "__proto__",
    "__defineGetter__", "__defineSetter__", "__lookupGetter__", "__lookupSetter__"
  }

  /** `state.articles[id]`: the own entry if there is one, else the inherited
      member of that name, else `undefined`. */
  function Lookup(articles: ArticleState, id: string): Stored {
    if id in articles then articles[id]
    else if id in InheritedNames then Truthy(None, None)
    else Falsy
  }

  /** What the page does. */
  datatype ArticleOutcome =
    | Suspend(fetchId: string)                  // throws the promise of fetchArticle(fetchId)
    | ErrorView                                 // "Something went wrong"
    | ContentView(title: string, body: string)  // the article's heading and text

  /** A string field is truthy: present and not empty. */
  predicate Present(field: Option<string>) {
    field.Some? && field.value != ""
  }

  /** Article: when what `state.articles[id]` reads is falsy (nothing stored
      for an id that names no inherited member, or a falsy stored value), the
      page throws the fetch of that article; a truthy value lacking a truthy
      title or body gives the error view; otherwise the page shows the title
      and body. */
  function Article(articles: ArticleState, id: string): (outcome: ArticleOutcome)
    ensures outcome.Suspend? <==>
      (id in articles && articles[id].Falsy?) || (id !in articles && id !in InheritedNames)
    ensures outcome.Suspend? ==> outcome.fetchId == id
    ensures outcome.ErrorView? <==>
      || (id in articles && articles[id].Truthy? && !(Present(articles[id].title) && Present(articles[id].body)))
      || (id !in articles && id in InheritedNames)
    ensures outcome.ContentView? ==>
      id in articles && articles[id] == Truthy(Some(outcome.title), Some(outcome.body))
      && outcome.title != "" && outcome.body != ""
  {
    var article := Lookup(articles, id);
    if article.Falsy? then Suspend(id)
    // the source tests `!article` again here; it cannot hold after the throw above
    else if !Present(article.title) || !Present(article.body) then ErrorView
    else ContentView(article.title.value, article.body.value)
  }

  /** An id naming an inherited member, with nothing stored under it, shows
      the error view without fetching: "/constructor" never suspends. */
  lemma InheritedNameShowsErrorView(articles: ArticleState, id: string)
    requires id in InheritedNames && id !in articles
    ensures Article(articles, id) == ErrorView
  {
  }

  /** After the fetch of `id` is stored, the page for `id` stops suspending
      exactly when the stored value is truthy, and the page for every other
      id is what it was. */
  lemma StoringSettlesOnlyThatArticle(s: ArticleState, action: Action, other: string)
    requires action.ArticleSuccess? || action.ArticleError?
    requires other != action.id
    ensures var r := ArticleReducer(Some(s), action);
      var stored := if action.ArticleSuccess? then action.data else action.error;
      && (Article(r, action.id).Suspend? <==> stored.Falsy?)
      && Article(r, other) == Article(s, other)
  {
  }
}
