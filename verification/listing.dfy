/** The listing API's response as the fetch loop sees it, and the
    extraction of announcements from one page of it. */
module Listing {

  datatype Option<T> = None | Some(value: T)

  /** One entry of `pageHelp.data`: the `TITLE` and `URL` keys, each of
      which may be missing (`item.get` returns `None`). */
  datatype Item = Item(title: Option<string>, url: Option<string>)

  /** The `pageHelp` object; its `data` key may be missing. */
  datatype PageHelp = PageHelp(data: Option<seq<seq<Item>>>)

  /** A decoded JSON body; its `pageHelp` key may be missing. */
  datatype Payload = Payload(pageHelp: Option<PageHelp>)

  /** What one request yields: a decoded body, a body that is not JSON, or
      a `RequestException` (connection failure, timeout or HTTP error status). */
  datatype Response = Parsed(payload: Payload) | ParseError | NetworkError

  /** An announcement as collected: its title and absolute document URL. */
  datatype Announcement = Announcement(title: string, url: string)

  /** The static-content host prefixed to every document path. */
  const StaticHost: string := "https://static.sse.com.cn"

  /** `data.get('pageHelp', {}).get('data', [])`: missing keys read as empty. */
  function PageData(p: Payload): (d: seq<seq<Item>>)
    ensures p.pageHelp.Some? && p.pageHelp.value.data.Some? ==> d == p.pageHelp.value.data.value
    ensures d != [] ==> p.pageHelp.Some? && p.pageHelp.value.data == Some(d)
  {
    match p.pageHelp
    case None => []
    case Some(help) =>
      match help.data
      case None => []
      case Some(d) => d
  }

  /** Python truthiness of an optional string: present and non-empty. */
  predicate Truthy(v: Option<string>) {
    v.Some? && |v.value| > 0
  }

  /** An item yields an announcement only when both its TITLE and URL are truthy. */
  predicate Kept(item: Item) {
    Truthy(item.title) && Truthy(item.url)
  }

  function Announce(item: Item): Announcement
    requires Kept(item)
  {
    Announcement(item.title.value, StaticHost + item.url.value)
  }

  /** The items of a list of lists, outer list first, then inner. */
  function Flatten(data: seq<seq<Item>>): seq<Item> {
    if data == [] then [] else data[0] + Flatten(data[1..])
  }

  /** The inner loop of the source over one list of items. */
  function ExtractItems(items: seq<Item>): (r: seq<Announcement>)
    ensures |r| <= |items|
  {
    if items == [] then []
    else if Kept(items[0]) then [Announce(items[0])] + ExtractItems(items[1..])
    else ExtractItems(items[1..])
  }

  /** The outer loop of the source: every inner list in turn. */
  function ExtractPage(data: seq<seq<Item>>): (r: seq<Announcement>)
    ensures |r| <= |Flatten(data)|
  {
    if data == [] then [] else ExtractItems(data[0]) + ExtractPage(data[1..])
  }

  /** Every record has a non-empty title and an absolute URL on the static
      host with a non-empty path, and there are no more records than items. */
  lemma {:induction false} ExtractItemsShape(items: seq<Item>)
    ensures |ExtractItems(items)| <= |items|
    ensures forall k :: 0 <= k < |ExtractItems(items)| ==>
      && |ExtractItems(items)[k].title| > 0
      && |StaticHost| < |ExtractItems(items)[k].url|
      && ExtractItems(items)[k].url[..|StaticHost|] == StaticHost
    decreases |items|
  {
    if items != [] {
      ExtractItemsShape(items[1..]);
    }
  }

  /** An item that fails the check is skipped and processing continues: the
      records of a concatenation are the records of its parts. */
  lemma {:induction false} ExtractItemsAppend(a: seq<Item>, b: seq<Item>)
    ensures ExtractItems(a + b) == ExtractItems(a) + ExtractItems(b)
    decreases |a|
  {
    if a == [] {
      assert a + b == b;
    } else {
      assert (a + b)[1..] == a[1..] + b;
      ExtractItemsAppend(a[1..], b);
    }
  }

  /** One item yields its announcement if kept, nothing otherwise. */
  lemma ExtractItemsSingle(item: Item)
    ensures ExtractItems([item]) == if Kept(item) then [Announce(item)] else []
  {
    assert [item][1..] == [];
  }

  /** Membership both ways: a record is produced exactly when some item
      is kept and announces it. */
  lemma {:induction false} ExtractItemsMembers(items: seq<Item>, a: Announcement)
    ensures a in ExtractItems(items) <==>
      exists i :: 0 <= i < |items| && Kept(items[i]) && Announce(items[i]) == a
    decreases |items|
  {
    if items != [] {
      ExtractItemsMembers(items[1..], a);
      if exists i :: 0 <= i < |items| && Kept(items[i]) && Announce(items[i]) == a {
        var i :| 0 <= i < |items| && Kept(items[i]) && Announce(items[i]) == a;
        if i > 0 {
          assert items[1..][i - 1] == items[i];
        }
      }
      if exists j :: 0 <= j < |items[1..]| && Kept(items[1..][j]) && Announce(items[1..][j]) == a {
        var j :| 0 <= j < |items[1..]| && Kept(items[1..][j]) && Announce(items[1..][j]) == a;
        assert items[j + 1] == items[1..][j];
      }
    }
  }

  /** Flattening and extracting commute: the nested loops yield the records
      of the flattened item list, in outer-then-inner order. */
  lemma {:induction false} ExtractPageFlat(data: seq<seq<Item>>)
    ensures ExtractPage(data) == ExtractItems(Flatten(data))
    decreases |data|
  {
    if data != [] {
      ExtractPageFlat(data[1..]);
      ExtractItemsAppend(data[0], Flatten(data[1..]));
    }
  }

  /** A worked example: of two items, the one with an empty
      TITLE is dropped and the other gets the static host prefixed. */
  lemma ExtractPageExample()
    ensures ExtractPage([[Item(Some("Q1 Report"), Some("/a.pdf"))],
                         [Item(Some(""), Some("/b.pdf"))]])
         == [Announcement("Q1 Report", "https://static.sse.com.cn/a.pdf")]
  {
    var page := [[Item(Some("Q1 Report"), Some("/a.pdf"))], [Item(Some(""), Some("/b.pdf"))]];
    ExtractItemsSingle(page[0][0]);
    ExtractItemsSingle(page[1][0]);
    assert !Kept(page[1][0]);
    assert page[1..][1..] == [];
    assert ExtractPage(page) == ExtractItems(page[0]) + ExtractItems(page[1]) + [];
    assert StaticHost + "/a.pdf" == "https://static.sse.com.cn/a.pdf";
  }
}
