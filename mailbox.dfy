/**
 * The remote mailbox as the archiver sees it (the Gmail API behind
 * `service.users()`): the label list, the successive answers to a paginated
 * `messages().list(...)`, and per-message answers to `messages().get(...)`
 * and `messages().trash(...)`. A call that raises is an explicit `None`,
 * `ListError` or `true` in these oracles.
 */
module Mailbox {
  import opened Wrappers
  import opened Files
  import Mime
  import opened Seqs

  type GmailId = string
  type LabelId = string

  datatype Label = Label(name: string, id: LabelId)

  /** Index `i` holds the first label called `name`. */
  ghost predicate FirstNamed(labels: seq<Label>, name: string, i: int) {
    0 <= i < |labels| && labels[i].name == name && forall j :: 0 <= j < i ==> labels[j].name != name
  }

  /** `get_label_id`: the id of the first label whose name is `name`, or `None`. */
  function LabelIdOf(labels: seq<Label>, name: string): (r: Option<LabelId>)
    ensures r.None? <==> forall i :: 0 <= i < |labels| ==> labels[i].name != name
    ensures r.Some? ==> exists i :: FirstNamed(labels, name, i) && labels[i].id == r.value
  {
    if labels == [] then None
    else if labels[0].name == name then
      assert FirstNamed(labels, name, 0);
      Some(labels[0].id)
    else
      var r := LabelIdOf(labels[1..], name);
      assert r.Some? ==> exists i :: FirstNamed(labels[1..], name, i) && labels[1..][i].id == r.value;
      assert forall i :: FirstNamed(labels[1..], name, i) ==> FirstNamed(labels, name, i + 1);
      r
  }

  /** `if label_id` in Python: a found, non-empty id. */
  predicate Resolved(id: Option<LabelId>) {
    id.Some? && id.value != ""
  }

  /** One answer of `messages().list(...).execute()`, or the exception it raised. */
  datatype ListResult = Page(ids: seq<GmailId>, nextPageToken: Option<string>) | ListError

  /** `results.get("nextPageToken")` is truthy. */
  predicate HasNext(p: ListResult)
    requires p.Page?
  {
    p.nextPageToken.Some? && p.nextPageToken.value != ""
  }

  /** The ids the pagination loop handles, and whether it stopped on a listing error. */
  datatype Pagination = Pagination(ids: seq<GmailId>, failed: bool)

  /**
   * The `while True` pagination loop from the `k`-th list call on: stop on an
   * error, on an empty page, or after a page without a next-page token.
   * A call past the end of `listing` answers with an empty page.
   */
  function PaginateFrom(listing: seq<ListResult>, k: nat): Pagination
    decreases |listing| - k
  {
    if k >= |listing| then Pagination([], false)
    else match listing[k]
      case ListError => Pagination([], true)
      case Page(ids, _) =>
        if ids == [] then Pagination([], false)
        else if !HasNext(listing[k]) then Pagination(ids, false)
        else
          var rest := PaginateFrom(listing, k + 1);
          Pagination(ids + rest.ids, rest.failed)
  }

  function Paginate(listing: seq<ListResult>): Pagination {
    PaginateFrom(listing, 0)
  }

  /** Page `i` is followed by another list call. */
  predicate Continues(listing: seq<ListResult>, i: nat) {
    i < |listing| && listing[i].Page? && listing[i].ids != [] && HasNext(listing[i])
  }

  function IdsOf(r: ListResult): seq<GmailId> {
    if r.Page? then r.ids else []
  }

  /** The ids of pages `k` up to (excluding) `n`. */
  function PagesIds(listing: seq<ListResult>, k: nat, n: nat): seq<GmailId>
    requires k <= n <= |listing|
    decreases n - k
  {
    if k == n then [] else IdsOf(listing[k]) + PagesIds(listing, k + 1, n)
  }

  /**
   * Pagination handles the pages up to the first one that does not lead to
   * another call (an error, an empty page, a page without token, or the end),
   * that last page included, and fails exactly when it stopped on an error.
   */
  lemma {:induction false} PaginateStopsAt(listing: seq<ListResult>, k: nat, n: nat)
    requires k <= n <= |listing|
    requires forall i :: k <= i < n ==> Continues(listing, i)
    requires !Continues(listing, n)
    ensures PaginateFrom(listing, k) == Pagination(
      PagesIds(listing, k, n) + (if n < |listing| then IdsOf(listing[n]) else []),
      n < |listing| && listing[n].ListError?)
    decreases n - k
  {
    if k < n {
      assert Continues(listing, k);
      PaginateStopsAt(listing, k + 1, n);
      var last, failed := if n < |listing| then IdsOf(listing[n]) else [], n < |listing| && listing[n].ListError?;
      PaginateUnroll(listing, k, n, last, failed);
    } else {
      PaginateLast(listing, n);
    }
  }

  /** One step of the induction above: a page that continues puts its ids in front. */
  lemma PaginateUnroll(listing: seq<ListResult>, k: nat, n: nat, last: seq<GmailId>, failed: bool)
    requires k < n <= |listing| && Continues(listing, k)
    requires PaginateFrom(listing, k + 1) == Pagination(PagesIds(listing, k + 1, n) + last, failed)
    ensures PaginateFrom(listing, k) == Pagination(PagesIds(listing, k, n) + last, failed)
  {
    PaginateContinues(listing, k);
    assert PagesIds(listing, k, n) == listing[k].ids + PagesIds(listing, k + 1, n);
    AppendAssoc(listing[k].ids, PagesIds(listing, k + 1, n), last);
  }

  lemma PaginateContinues(listing: seq<ListResult>, k: nat)
    requires Continues(listing, k)
    ensures PaginateFrom(listing, k) == Pagination(
      listing[k].ids + PaginateFrom(listing, k + 1).ids, PaginateFrom(listing, k + 1).failed)
  {
  }

  lemma PaginateLast(listing: seq<ListResult>, n: nat)
    requires n <= |listing|
    requires !Continues(listing, n)
    ensures PaginateFrom(listing, n) == Pagination(
      if n < |listing| then IdsOf(listing[n]) else [],
      n < |listing| && listing[n].ListError?)
  {
  }

  /** What `messages().get(format="raw")` yields once base64-decoded and parsed. */
  datatype Fetched = Fetched(
    raw: Bytes, email: Mime.Email, snippet: Option<string>,
    labelIds: Option<seq<LabelId>>, threadId: Option<string>)

  datatype Mailbox = Mailbox(
    /** `labels().list()` */
    labels: seq<Label>,
    /** successive answers to `messages().list(labelIds=[id])` */
    listByLabel: LabelId -> seq<ListResult>,
    /** successive answers to `messages().list(q="before:<date>")` */
    listBefore: string -> seq<ListResult>,
    /** `messages().get(format="raw")`, decoded and parsed; `None` when any step raises */
    fetchRaw: GmailId -> Option<Fetched>,
    /** `messages().get(format="metadata")["labelIds"]`; `None` when it raises */
    fetchLabels: GmailId -> Option<seq<LabelId>>,
    /** `messages().trash(id)` raises */
    trashFails: GmailId -> bool)
}
