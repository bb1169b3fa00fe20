/** The `usePaginator` transformation: a Laravel-style pagination payload becomes a
    render-ready view model.

    The steps are those of the JavaScript function: resolve the metadata object and the link list,
    normalise each link URL, classify each link by its position and caption, then
    derive `pages`, `previous`, `next` and the `first` / `last` shortcuts and pass
    `total`, `from` and `to` through. The exceptions the JavaScript code can raise
    become `Error` values.
 */
module Paginator {
  import opened Wrappers
  import JsNumber

  /** One entry of the backend's link list. `text` is the JavaScript record's `label`
      (`label` is a reserved word in Dafny). A `None` URL is `null` or `undefined`. */
  datatype Link = Link(url: Option<string>, text: string, active: bool)

  /** A classified link, ready to render. */
  datatype Item = Item(
    url: Option<string>,
    text: string,
    isPage: bool,
    isActive: bool,
    isPrevious: bool,
    isNext: bool,
    isCurrent: bool,
    isSeparator: bool)
  {
    /** Whether the item is kept in `pages`. */
    predicate IsListed() {
      isPage || isSeparator
    }
  }

  /** The flags `Array.prototype.find` is asked about. */
  datatype Flag = Current | Previous | Next

  predicate HasFlag(item: Item, flag: Flag) {
    match flag
    case Current => item.isCurrent
    case Previous => item.isPrevious
    case Next => item.isNext
  }

  /** The metadata fields the transformation reads. Every field may be absent:
      a payload object without `meta` is read as metadata itself. */
  datatype Meta = Meta(
    from: Option<int>,
    to: Option<int>,
    total: Option<int>,
    links: Option<seq<Link>>)

  /** The payload: an optional nested `meta` object, plus the payload's own
      top-level fields (all of them in the flattened shape, `links` at most in
      the nested one). */
  datatype Payload = Payload(meta: Option<Meta>, fields: Meta)

  datatype ViewModel = ViewModel(
    pages: seq<Item>,
    items: seq<Item>,
    previous: Item,
    next: Item,
    first: Item,
    last: Item,
    total: Option<int>,
    from: Option<int>,
    to: Option<int>)

  /** The exceptions `usePaginator` can raise. */
  datatype Error =
    | MissingLinkList           // `.map` on an undefined link list: a TypeError
    | MalformedUrl(index: nat)  // `decodeURIComponent` throws a URIError on this link
    | InsufficientLinks(count: nat) // `items[1].url` on a list shorter than 2: a TypeError

  /** `decodeURIComponent`, supplied by the caller: `None` stands for the URIError
      it throws on a malformed escape sequence. */
  type Decoder = string -> Option<string>

  const Separator: string := "..."
  const FirstCaption: string := "&laquo;"
  const LastCaption: string := "&raquo;"

  /** `data.meta ?? data`. */
  function ResolveMeta(p: Payload): Meta {
    if p.meta.Some? then p.meta.value else p.fields
  }

  /** `meta.links ?? data.links`; `None` when both are absent. */
  function ResolveLinks(p: Payload): (r: Option<seq<Link>>)
    ensures r.None? <==> ResolveMeta(p).links.None? && p.fields.links.None?
    ensures ResolveMeta(p).links.Some? ==> r == ResolveMeta(p).links
    ensures r.Some? ==> r == ResolveMeta(p).links || r == p.fields.links
  {
    var meta := ResolveMeta(p);
    if meta.links.Some? then meta.links else p.fields.links
  }

  /** JavaScript treats `null`, `undefined` and `""` as false in `link.url ? … : null`. */
  predicate IsBlank(url: Option<string>) {
    url.None? || url.value == ""
  }

  /** Normalising `url` does not throw. */
  predicate Decodable(url: Option<string>, decode: Decoder) {
    IsBlank(url) || decode(url.value).Some?
  }

  /** `url ? decodeURIComponent(url) : null`. */
  function NormalUrl(url: Option<string>, decode: Decoder): (r: Option<string>)
    requires Decodable(url, decode)
    ensures IsBlank(url) ==> r.None?
    ensures !IsBlank(url) ==> r.Some? && decode(url.value) == r
  {
    if IsBlank(url) then None else decode(url.value)
  }

  /** The position of the first link whose URL does not decode, if any. */
  function FirstUndecodable(links: seq<Link>, decode: Decoder): (r: Option<nat>)
    ensures r.Some? ==>
      && r.value < |links|
      && !Decodable(links[r.value].url, decode)
      && forall i :: 0 <= i < r.value ==> Decodable(links[i].url, decode)
    ensures r.None? ==> forall i :: 0 <= i < |links| ==> Decodable(links[i].url, decode)
  {
    if |links| == 0 then None
    else if !Decodable(links[0].url, decode) then Some(0)
    else
      match FirstUndecodable(links[1..], decode)
      case None => None
      case Some(k) => Some(k + 1)
  }

  /** Step 2: every link with its URL normalised once, or the index of the first
      link whose URL does not decode, where `map` stops with the URIError. */
  function NormaliseLinks(links: seq<Link>, decode: Decoder): (r: Result<seq<Link>, nat>)
    ensures r.Success? ==>
      && |r.value| == |links|
      && forall i :: 0 <= i < |links| ==>
           && Decodable(links[i].url, decode)
           && r.value[i] == links[i].(url := NormalUrl(links[i].url, decode))
    ensures r.Failure? ==>
      && r.error < |links|
      && !Decodable(links[r.error].url, decode)
      && forall i :: 0 <= i < r.error ==> Decodable(links[i].url, decode)
  {
    match FirstUndecodable(links, decode)
    case Some(k) => Failure(k)
    case None =>
      Success(seq(|links|, i requires 0 <= i < |links| => links[i].(url := NormalUrl(links[i].url, decode))))
  }

  /** Step 3 for one link at position `index` of a list of `count` links. */
  function Classify(link: Link, index: nat, count: nat): Item {
    Item(
      url := link.url,
      text := link.text,
      isPage := JsNumber.IsNumericLabel(link.text),
      isActive := !IsBlank(link.url) && !link.active,
      isPrevious := index == 0,
      isNext := index == count - 1,
      isCurrent := link.active,
      isSeparator := link.text == Separator)
  }

  /** Step 3: `links.map((link, index) => …)`. */
  function ClassifyAll(links: seq<Link>): (items: seq<Item>)
    ensures |items| == |links|
    ensures forall i :: 0 <= i < |links| ==> items[i] == Classify(links[i], i, |links|)
  {
    seq(|links|, i requires 0 <= i < |links| => Classify(links[i], i, |links|))
  }

  /** `items.filter((item) => item.isPage || item.isSeparator)`. */
  function Pages(items: seq<Item>): (r: seq<Item>)
    ensures |r| <= |items|
    ensures forall x :: x in r <==> x in items && x.IsListed()
  {
    if |items| == 0 then []
    else (if items[0].IsListed() then [items[0]] else []) + Pages(items[1..])
  }

  /** The position of the first item carrying `flag`, if any. */
  function FindIndex(items: seq<Item>, flag: Flag): (r: Option<nat>)
    ensures r.Some? ==>
      && r.value < |items|
      && HasFlag(items[r.value], flag)
      && forall j :: 0 <= j < r.value ==> !HasFlag(items[j], flag)
    ensures r.None? ==> forall j :: 0 <= j < |items| ==> !HasFlag(items[j], flag)
  {
    if |items| == 0 then None
    else if HasFlag(items[0], flag) then Some(0)
    else
      match FindIndex(items[1..], flag)
      case None => None
      case Some(k) => Some(k + 1)
  }

  /** `items.find((item) => item[flag])`. */
  function Find(items: seq<Item>, flag: Flag): (r: Option<Item>)
    ensures r.Some? ==> r.value in items && HasFlag(r.value, flag)
    ensures r.Some? ==>
      exists k :: && 0 <= k < |items| && items[k] == r.value
                  && forall j :: 0 <= j < k ==> !HasFlag(items[j], flag)
    ensures r.None? <==> forall j :: 0 <= j < |items| ==> !HasFlag(items[j], flag)
  {
    match FindIndex(items, flag)
    case None => None
    case Some(k) => Some(items[k])
  }

  /** `{ ...item, isActive: item.url !== current?.url, label: caption }`. When there
      is no current item, `current?.url` is `undefined`, which no normalised URL
      equals. */
  function Shortcut(item: Item, caption: string, current: Option<Item>): (r: Item)
    ensures r.text == caption
    ensures r.isActive <==> current.None? || item.url != current.value.url
    ensures r.(text := item.text, isActive := item.isActive) == item
  {
    item.(text := caption, isActive := current.None? || item.url != current.value.url)
  }

  /** Step 4 and 5: the view model of a normalised link list. */
  function View(links: seq<Link>, meta: Meta): (vm: ViewModel)
    requires |links| >= 2
    ensures |vm.items| == |links|
    ensures vm.previous == vm.items[0] && vm.next == vm.items[|links| - 1]
  {
    var items := ClassifyAll(links);
    var n := |items|;
    assert HasFlag(items[0], Previous) && HasFlag(items[n - 1], Next);
    var current := Find(items, Current);
    ViewModel(
      pages := Pages(items),
      items := items,
      previous := Find(items, Previous).value,
      next := Find(items, Next).value,
      first := Shortcut(items[1], FirstCaption, current),
      last := Shortcut(items[n - 1], LastCaption, current),
      total := meta.total,
      from := meta.from,
      to := meta.to)
  }

  /** Steps 2 to 5 once the metadata object and the link list are resolved. */
  function Transform(meta: Meta, raw: Option<seq<Link>>, decode: Decoder): (r: Result<ViewModel, Error>)
    ensures r == Failure(MissingLinkList) <==> raw.None?
    ensures r.Success? ==> raw.Some? && 2 <= |r.value.items| == |raw.value|
  {
    match raw
    case None => Failure(MissingLinkList)
    case Some(raw) =>
      match NormaliseLinks(raw, decode)
      case Failure(k) => Failure(MalformedUrl(k))
      case Success(links) =>
        if |links| < 2 then Failure(InsufficientLinks(|links|))
        else Success(View(links, meta))
  }

  /** The whole transformation. */
  function UsePaginator(p: Payload, decode: Decoder): (r: Result<ViewModel, Error>)
    ensures r == Failure(MissingLinkList) <==> ResolveLinks(p).None?
    ensures r.Success? ==>
      && ResolveLinks(p).Some?
      && 2 <= |r.value.items| == |ResolveLinks(p).value|
      && r.value.previous == r.value.items[0]
      && r.value.next == r.value.items[|r.value.items| - 1]
  {
    Transform(ResolveMeta(p), ResolveLinks(p), decode)
  }
}
