/**
 * The actions dispatched in the Redux example (examples/redux/src/app).
 * The store hands every action to every reducer, so both reducers take this
 * one type; an action of any other type is `Other`.
 */
module Actions {
  import opened Js

  /** What the article reducer stores for an id: the fetched article data, or
      the error the fetch failed with. Only its truthiness and its `title` and
      `body` fields matter to the page that reads it. A field is `None` when
      it is absent. */
  datatype Stored =
    | Falsy
    | Truthy(title: Option<string>, body: Option<string>)

  /** One entry of the article list: the fields the home page reads. */
  datatype ListedArticle = ListedArticle(id: string, title: string)

  datatype Action =
    | ArticleSuccess(id: string, data: Stored)     // {type: 'ARTICLE_SUCCESS', payload: {id, data}}
    | ArticleError(id: string, error: Stored)      // {type: 'ARTICLE_ERROR', payload: {id, error}}
    | ArticleListSuccess(payload: seq<ListedArticle>)  // {type: 'ARTICLE_LIST_SUCCESS', payload}
    | Other
}
