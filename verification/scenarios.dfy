/** Concrete payloads of the shape Laravel produces, and one general consequence
    of how the `last` shortcut is built. */
module Scenarios {
  import opened Wrappers
  import JsNumber
  import opened Paginator
  import opened PaginatorProperties

  /** A decoder for URLs that hold no escape sequences. */
  function Plain(url: string): Option<string> {
    Some(url)
  }

  /** Page 1 of 2: previous, pages 1 and 2, next. */
  function FirstOfTwo(): seq<Link> {
    [ Link(Some("/?page=1"), "Previous", false),
      Link(Some("/?page=1"), "1", true),
      Link(Some("/?page=2"), "2", false),
      Link(Some("/?page=2"), "Next", false) ]
  }

  /** The flattened payload of 20 rows, showing rows 1 to 10. */
  function FirstOfTwoPayload(): Payload {
    Payload(None, Meta(from := Some(1), to := Some(10), total := Some(20), links := Some(FirstOfTwo())))
  }

  /** The plain decoder leaves every link as it is, as long as no URL is empty. */
  lemma PlainLinksUnchanged(links: seq<Link>)
    requires forall i :: 0 <= i < |links| ==> links[i].url != Some("")
    ensures NormaliseLinks(links, Plain) == Success(links)
  {
    var r := NormaliseLinks(links, Plain);
    assert r.Success?;
    forall i | 0 <= i < |links|
      ensures r.value[i] == links[i]
    {
      assert NormalUrl(links[i].url, Plain) == links[i].url;
    }
    assert r.value == links;
  }

  /** `pages` of four items of which the middle two are listed. */
  lemma PagesOfFour(items: seq<Item>)
    requires |items| == 4
    requires !items[0].IsListed() && items[1].IsListed() && items[2].IsListed() && !items[3].IsListed()
    ensures Pages(items) == [items[1], items[2]]
  {
    assert Pages(items[3..]) == [] by {
      assert items[3..][1..] == [];
    }
    assert items[2..][1..] == items[3..];
    assert Pages(items[2..]) == [items[2]];
    assert items[1..][1..] == items[2..];
    assert Pages(items[1..]) == [items[1], items[2]];
  }

  /** The sample payload is valid: its view is that of its links. */
  lemma FirstOfTwoSucceeds()
    ensures UsePaginator(FirstOfTwoPayload(), Plain)
         == Success(View(FirstOfTwo(), FirstOfTwoPayload().fields))
  {
    PlainLinksUnchanged(FirstOfTwo());
  }

  /** The sample's end links carry captions. */
  lemma FirstOfTwoCaptions()
    ensures var links := FirstOfTwo();
      |links| == 4 && JsNumber.IsCaption(links[0].text) && JsNumber.IsCaption(links[3].text)
  {
    assert FirstOfTwo()[0].text == "Previous" && FirstOfTwo()[3].text == "Next";
  }

  /** The sample's page links carry numbers. */
  lemma FirstOfTwoNumbers()
    ensures var links := FirstOfTwo();
      |links| == 4 && JsNumber.IsNumericLabel(links[1].text) && JsNumber.IsNumericLabel(links[2].text)
  {
    assert FirstOfTwo()[1].text == "1" && FirstOfTwo()[2].text == "2";
    JsNumber.DigitStringIsNumeric("1");
    JsNumber.DigitStringIsNumeric("2");
  }

  /** The view of four links, captions at the ends and page numbers between, the
      second being the current page. */
  lemma ViewOfFour(links: seq<Link>, meta: Meta)
    requires |links| == 4
    requires JsNumber.IsCaption(links[0].text) && JsNumber.IsCaption(links[3].text)
    requires JsNumber.IsNumericLabel(links[1].text) && JsNumber.IsNumericLabel(links[2].text)
    requires !links[0].active && links[1].active && links[3].url != links[1].url
    ensures var vm := View(links, meta);
      && vm.pages == [vm.items[1], vm.items[2]]
      && vm.first == vm.items[1].(text := FirstCaption, isActive := false)
      && vm.last == vm.items[3].(text := LastCaption, isActive := true)
  {
    var items := ClassifyAll(links);
    CaptionedLinkIsNotListed(links, 0, links[0].text);
    CaptionedLinkIsNotListed(links, 3, links[3].text);
    PagesOfFour(items);
    CurrentIsFirstActive(links, 1);
  }

  /** On page 1 of 2, `pages` holds the two page numbers, `first` points at the
      current page and is therefore inactive, and `last` is active. */
  lemma FirstOfTwoView()
    ensures var r := UsePaginator(FirstOfTwoPayload(), Plain);
      && r.Success?
      && |r.value.pages| == 2
      && r.value.pages[0].text == "1" && r.value.pages[1].text == "2"
      && r.value.previous.isPrevious && r.value.previous.text == "Previous"
      && r.value.first.text == "&laquo;" && !r.value.first.isActive
      && r.value.last.text == "&raquo;" && r.value.last.isActive
      && r.value.total == Some(20) && r.value.from == Some(1) && r.value.to == Some(10)
  {
    FirstOfTwoSucceeds();
    FirstOfTwoCaptions();
    FirstOfTwoNumbers();
    ViewOfFour(FirstOfTwo(), FirstOfTwoPayload().fields);
  }

  /** The view of two unlisted links, neither of them current. */
  lemma ViewOfTwo(links: seq<Link>, meta: Meta)
    requires |links| == 2
    requires var items := ClassifyAll(links); !items[0].IsListed() && !items[1].IsListed()
    requires !links[0].active && !links[1].active
    ensures var vm := View(links, meta);
      && vm.pages == []
      && vm.first == vm.items[1].(text := FirstCaption, isActive := true)
      && vm.last == vm.items[1].(text := LastCaption, isActive := true)
  {
    var items := ClassifyAll(links);
    assert Pages(items) == [] by {
      assert items[1..][1..] == [];
    }
    assert Find(items, Current).None?;
  }

  /** A list with only the previous and next links is accepted, although
      `items[1]` is then the next link: `first` and `last` are both copies of it
      and `pages` is empty. */
  lemma TwoLinksAreAccepted(p: Payload, decode: Decoder)
    requires ResolveLinks(p).Some? && |ResolveLinks(p).value| == 2
    requires var raw := ResolveLinks(p).value;
      && JsNumber.IsCaption(raw[0].text) && JsNumber.IsCaption(raw[1].text)
      && !raw[0].active && !raw[1].active
      && Decodable(raw[0].url, decode) && Decodable(raw[1].url, decode)
    ensures var r := UsePaginator(p, decode);
      && r.Success?
      && r.value.pages == []
      && r.value.first.(text := r.value.next.text) == r.value.next.(isActive := true)
      && r.value.last == r.value.first.(text := LastCaption)
  {
    var raw := ResolveLinks(p).value;
    assert AllDecodable(raw, decode) by {
      forall i | 0 <= i < |raw|
        ensures Decodable(raw[i].url, decode)
      {
        assert i == 0 || i == 1;
      }
    }
    FailureCases(p, decode);
    SuccessIsView(p, decode);
    var links := NormaliseLinks(raw, decode).value;
    JsNumber.CaptionIsNotNumeric(raw[0].text);
    JsNumber.CaptionIsNotNumeric(raw[1].text);
    assert links[0].text == raw[0].text && links[1].text == raw[1].text;
    ViewOfTwo(links, ResolveMeta(p));
  }

  /** On the last page the next link has no URL, so neither `next` nor `last` has
      one, and `next` is inactive. */
  lemma LastPageEndsWithoutUrl(p: Payload, decode: Decoder)
    requires UsePaginator(p, decode).Success?
    requires var raw := ResolveLinks(p).value; IsBlank(raw[|raw| - 1].url)
    ensures var vm := UsePaginator(p, decode).value;
      && vm.next.url.None?
      && vm.last.url.None?
      && !vm.next.isActive
  {
    var n := |ResolveLinks(p).value|;
    ItemAt(p, decode, n - 1);
    ShortcutsCopyItems(p, decode);
  }

  /** `last` is active whenever its URL differs from that of every active link:
      in particular when it has none and the active links all have one. */
  lemma LastActiveAgainstUrls(p: Payload, decode: Decoder)
    requires UsePaginator(p, decode).Success?
    requires var raw := ResolveLinks(p).value;
      var vm := UsePaginator(p, decode).value;
      forall k :: 0 <= k < |raw| && raw[k].active ==> vm.items[k].url != vm.last.url
    ensures UsePaginator(p, decode).value.last.isActive
  {
    var raw := ResolveLinks(p).value;
    var vm := UsePaginator(p, decode).value;
    var n := |raw|;
    ShortcutsCopyItems(p, decode);
    var current := FindIndex(vm.items, Current);
    if current.None? {
      forall i | 0 <= i < n
        ensures !raw[i].active
      {
        ItemAt(p, decode, i);
      }
      ShortcutsWithoutCurrent(p, decode);
    } else {
      var k := current.value;
      forall j | 0 <= j < k
        ensures !raw[j].active
      {
        ItemAt(p, decode, j);
      }
      ItemAt(p, decode, k);
      ShortcutsAgainstCurrent(p, decode, k);
    }
  }

  /** On the last page the next link has no URL, yet `last`, which copies it, is
      active whenever the active links have URLs (as Laravel's current-page link
      does): an active item with no URL to follow, unlike every item of `items`. */
  lemma LastShortcutActiveWithoutUrl(p: Payload, decode: Decoder)
    requires UsePaginator(p, decode).Success?
    requires var raw := ResolveLinks(p).value;
      && IsBlank(raw[|raw| - 1].url)
      && forall k :: 0 <= k < |raw| && raw[k].active ==> !IsBlank(raw[k].url)
    ensures var vm := UsePaginator(p, decode).value;
      && vm.last.url.None?
      && vm.last.isActive
      && !vm.next.isActive
  {
    var raw := ResolveLinks(p).value;
    var vm := UsePaginator(p, decode).value;
    LastPageEndsWithoutUrl(p, decode);
    forall k | 0 <= k < |raw| && raw[k].active
      ensures vm.items[k].url != vm.last.url
    {
      ItemAt(p, decode, k);
      FailureCases(p, decode);
      assert Decodable(raw[k].url, decode);
    }
    LastActiveAgainstUrls(p, decode);
  }
}
