/** What `usePaginator` promises about its result, stated against the payload it
    was given and proved about the model in module Paginator. */
module PaginatorProperties {
  import opened Wrappers
  import JsNumber
  import opened Paginator

  /** Every link's URL normalises without an exception. */
  ghost predicate AllDecodable(links: seq<Link>, decode: Decoder) {
    forall i :: 0 <= i < |links| ==> Decodable(links[i].url, decode)
  }

  /** A successful call is the view of the normalised resolved links. */
  lemma SuccessIsView(p: Payload, decode: Decoder)
    requires UsePaginator(p, decode).Success?
    ensures ResolveLinks(p).Some?
    ensures NormaliseLinks(ResolveLinks(p).value, decode).Success?
    ensures |NormaliseLinks(ResolveLinks(p).value, decode).value| >= 2
    ensures UsePaginator(p, decode).value
         == View(NormaliseLinks(ResolveLinks(p).value, decode).value, ResolveMeta(p))
  {
  }

  /** The payload fails exactly as the JavaScript code throws: first on a missing
      link list, then on the first link whose URL does not decode, then on a list
      too short for `items[1]`; otherwise it succeeds. */
  lemma FailureCases(p: Payload, decode: Decoder)
    ensures var r := UsePaginator(p, decode);
      && (ResolveLinks(p).None? ==> r == Failure(MissingLinkList))
      && (ResolveLinks(p).Some? ==>
            var raw := ResolveLinks(p).value;
            && (r.Success? <==> AllDecodable(raw, decode) && |raw| >= 2)
            && (r.Failure? ==> r.error != MissingLinkList)
            && (!AllDecodable(raw, decode) ==> r.Failure? && r.error.MalformedUrl?)
            && (r.Failure? && r.error.MalformedUrl? ==>
                  && r.error.index < |raw|
                  && !Decodable(raw[r.error.index].url, decode)
                  && forall j :: 0 <= j < r.error.index ==> Decodable(raw[j].url, decode))
            && (r == Failure(InsufficientLinks(|raw|)) <==> AllDecodable(raw, decode) && |raw| < 2))
  {
    if ResolveLinks(p).Some? {
      var raw := ResolveLinks(p).value;
      var n := NormaliseLinks(raw, decode);
      if !AllDecodable(raw, decode) {
        var i :| 0 <= i < |raw| && !Decodable(raw[i].url, decode);
        assert n.Failure?;
      }
    }
  }

  /** Items mirror the resolved links one for one and in order: the caption and
      the flag `active` are copied, the URL is decoded exactly once (blank URLs
      become `None`), `isPrevious` and `isNext` mark the two ends by position
      alone, `isActive` means a non-blank URL on a link that is not active,
      `isSeparator` is the exact caption `...` and `isPage` is `!isNaN(+label)`. */
  lemma ItemsFollowLinks(p: Payload, decode: Decoder)
    requires UsePaginator(p, decode).Success?
    ensures ResolveLinks(p).Some?
    ensures var raw := ResolveLinks(p).value;
      var items := UsePaginator(p, decode).value.items;
      && |items| == |raw|
      && forall i :: 0 <= i < |raw| ==>
           && items[i].text == raw[i].text
           && items[i].url == (if IsBlank(raw[i].url) then None else decode(raw[i].url.value))
  {
    forall i | 0 <= i < |ResolveLinks(p).value| {
      ItemAt(p, decode, i);
    }
  }

  /** The item at position `i`, in terms of its link and `i`. */
  lemma ItemAt(p: Payload, decode: Decoder, i: nat)
    requires UsePaginator(p, decode).Success?
    requires i < |ResolveLinks(p).value|
    ensures var raw := ResolveLinks(p).value;
      var items := UsePaginator(p, decode).value.items;
      && |items| == |raw|
      && items[i].text == raw[i].text
      && items[i].url == (if IsBlank(raw[i].url) then None else decode(raw[i].url.value))
      && (items[i].isPrevious <==> i == 0)
      && (items[i].isNext <==> i == |raw| - 1)
      && items[i].isCurrent == raw[i].active
      && (items[i].isActive <==> !IsBlank(items[i].url) && !raw[i].active)
      && (items[i].isSeparator <==> raw[i].text == "...")
      && (items[i].isPage <==> JsNumber.IsNumericLabel(raw[i].text))
  {
    SuccessIsView(p, decode);
    var raw := ResolveLinks(p).value;
    var links := NormaliseLinks(raw, decode).value;
    assert links[i] == raw[i].(url := NormalUrl(raw[i].url, decode));
  }

  /** The flags every item carries: `isPrevious` and `isNext` mark the two ends by
      position alone, `isCurrent` copies `active`, `isActive` means a non-blank URL
      on a link that is not active, `isSeparator` is the exact caption `...` and
      `isPage` is `!isNaN(+label)`. */
  lemma ItemFlags(p: Payload, decode: Decoder)
    requires UsePaginator(p, decode).Success?
    ensures ResolveLinks(p).Some?
    ensures var raw := ResolveLinks(p).value;
      var items := UsePaginator(p, decode).value.items;
      && |items| == |raw|
      && forall i :: 0 <= i < |raw| ==>
           && (items[i].isPrevious <==> i == 0)
           && (items[i].isNext <==> i == |raw| - 1)
           && items[i].isCurrent == raw[i].active
           && (items[i].isActive <==> !IsBlank(items[i].url) && !raw[i].active)
           && (items[i].isSeparator <==> raw[i].text == "...")
           && (items[i].isPage <==> JsNumber.IsNumericLabel(raw[i].text))
  {
    forall i | 0 <= i < |ResolveLinks(p).value| {
      ItemAt(p, decode, i);
    }
  }

  /** `isPrevious` and `isNext` depend on the position only: relabelling the links,
      or changing their URLs or `active` flags, leaves both flags where they were. */
  lemma PositionsIgnoreContent(a: seq<Link>, b: seq<Link>)
    requires |a| == |b|
    ensures forall i :: 0 <= i < |a| ==>
      && ClassifyAll(a)[i].isPrevious == ClassifyAll(b)[i].isPrevious
      && ClassifyAll(a)[i].isNext == ClassifyAll(b)[i].isNext
  {
  }

  /** Exactly one item is the previous one and exactly one the next one, and with
      at least two links they differ. */
  lemma UniquePreviousAndNext(p: Payload, decode: Decoder)
    requires UsePaginator(p, decode).Success?
    ensures var vm := UsePaginator(p, decode).value;
      && (forall i, j :: 0 <= i < j < |vm.items| ==> !(vm.items[i].isPrevious && vm.items[j].isPrevious))
      && (forall i, j :: 0 <= i < j < |vm.items| ==> !(vm.items[i].isNext && vm.items[j].isNext))
      && vm.previous.isPrevious && !vm.previous.isNext
      && vm.next.isNext && !vm.next.isPrevious
  {
    ItemFlags(p, decode);
  }

  /** The positions, in increasing order, of the items from `lo` on that belong in
      `pages`: a reference definition of the filter by index. */
  function ListedIndices(items: seq<Item>, lo: nat): (r: seq<nat>)
    requires lo <= |items|
    decreases |items| - lo
    ensures forall k :: 0 <= k < |r| ==> lo <= r[k] < |items| && items[r[k]].IsListed()
    ensures forall k, l :: 0 <= k < l < |r| ==> r[k] < r[l]
  {
    if lo == |items| then []
    else (if items[lo].IsListed() then [lo] else []) + ListedIndices(items, lo + 1)
  }

  /** No listed item is skipped: every listed position from `lo` on is in the list. */
  lemma {:induction false} ListedIndicesComplete(items: seq<Item>, lo: nat, i: nat)
    requires lo <= i < |items| && items[i].IsListed()
    decreases |items| - lo
    ensures i in ListedIndices(items, lo)
  {
    if i > lo {
      ListedIndicesComplete(items, lo + 1, i);
    }
  }

  /** The items at the given positions, in the given order. */
  function Gather(items: seq<Item>, positions: seq<nat>): (r: seq<Item>)
    requires forall k :: 0 <= k < |positions| ==> positions[k] < |items|
    ensures |r| == |positions|
  {
    seq(|positions|, k requires 0 <= k < |positions| => items[positions[k]])
  }

  /** Gathering is compositional in the positions. */
  lemma GatherAppend(items: seq<Item>, a: seq<nat>, b: seq<nat>)
    requires forall k :: 0 <= k < |a| ==> a[k] < |items|
    requires forall k :: 0 <= k < |b| ==> b[k] < |items|
    ensures Gather(items, a + b) == Gather(items, a) + Gather(items, b)
  {
    var ab := a + b;
    forall k | 0 <= k < |ab|
      ensures Gather(items, ab)[k] == (Gather(items, a) + Gather(items, b))[k]
    {
      if k >= |a| {
        assert ab[k] == b[k - |a|];
      }
    }
  }

  /** `Pages` of the items from `lo` on gathers the listed positions from `lo` on. */
  lemma {:induction false} PagesFrom(items: seq<Item>, lo: nat)
    requires lo <= |items|
    decreases |items| - lo
    ensures Pages(items[lo..]) == Gather(items, ListedIndices(items, lo))
  {
    if lo < |items| {
      PagesFrom(items, lo + 1);
      assert items[lo..][1..] == items[lo + 1..];
      var rest := ListedIndices(items, lo + 1);
      if items[lo].IsListed() {
        GatherAppend(items, [lo], rest);
        assert Gather(items, [lo]) == [items[lo]];
      } else {
        assert ListedIndices(items, lo) == [] + rest;
        assert [] + rest == rest;
      }
    }
  }

  /** `pages` is the filter of `items` by `isPage || isSeparator`: the listed items
      and only those, each once per position, in their original order. */
  lemma PagesAreListedItems(p: Payload, decode: Decoder)
    requires UsePaginator(p, decode).Success?
    ensures var vm := UsePaginator(p, decode).value;
      && vm.pages == Gather(vm.items, ListedIndices(vm.items, 0))
      && forall x :: x in vm.pages <==> x in vm.items && (x.isPage || x.isSeparator)
  {
    var items := UsePaginator(p, decode).value.items;
    PagesFrom(items, 0);
    assert items[0..] == items;
  }

  /** An item whose link carries a caption is not listed in `pages`. */
  lemma CaptionedItemIsNotListed(p: Payload, decode: Decoder, i: nat)
    requires UsePaginator(p, decode).Success?
    requires i < |ResolveLinks(p).value|
    requires JsNumber.IsCaption(ResolveLinks(p).value[i].text)
    ensures i < |UsePaginator(p, decode).value.items|
    ensures !UsePaginator(p, decode).value.items[i].IsListed()
  {
    var raw := ResolveLinks(p).value;
    var vm := UsePaginator(p, decode).value;
    ItemAt(p, decode, i);
    JsNumber.CaptionIsNotNumeric(raw[i].text);
    assert !vm.items[i].isPage;
    assert !vm.items[i].isSeparator;
  }

  /** When neither end item is listed, no item of `pages` is the previous or the
      next one. */
  lemma UnlistedEndsStayOutOfPages(p: Payload, decode: Decoder)
    requires UsePaginator(p, decode).Success?
    requires var vm := UsePaginator(p, decode).value;
      !vm.items[0].IsListed() && !vm.items[|vm.items| - 1].IsListed()
    ensures var vm := UsePaginator(p, decode).value;
      && vm.previous !in vm.pages
      && vm.next !in vm.pages
      && forall x :: x in vm.pages ==> !x.isPrevious && !x.isNext
  {
    var vm := UsePaginator(p, decode).value;
    var n := |vm.items|;
    ItemFlags(p, decode);
    PagesAreListedItems(p, decode);
    forall x | x in vm.pages
      ensures !x.isPrevious && !x.isNext
    {
      var i :| 0 <= i < n && vm.items[i] == x;
      assert vm.items[i].IsListed();
      assert 0 < i < n - 1;
    }
  }

  /** A link carrying a caption classifies as an unlisted item. */
  lemma CaptionedLinkIsNotListed(links: seq<Link>, i: nat, caption: string)
    requires i < |links| && links[i].text == caption && JsNumber.IsCaption(caption)
    ensures !ClassifyAll(links)[i].IsListed()
  {
    JsNumber.CaptionIsNotNumeric(caption);
  }

  /** When the two end links carry captions, neither end item is listed. */
  lemma CaptionedEndsAreUnlisted(p: Payload, decode: Decoder)
    requires UsePaginator(p, decode).Success?
    requires var raw := ResolveLinks(p).value;
      JsNumber.IsCaption(raw[0].text) && JsNumber.IsCaption(raw[|raw| - 1].text)
    ensures var items := UsePaginator(p, decode).value.items;
      !items[0].IsListed() && !items[|items| - 1].IsListed()
  {
    SuccessIsView(p, decode);
    var raw := ResolveLinks(p).value;
    var links := NormaliseLinks(raw, decode).value;
    var n := |raw|;
    CaptionedLinkIsNotListed(links, 0, raw[0].text);
    CaptionedLinkIsNotListed(links, n - 1, raw[n - 1].text);
  }

  /** When the two end links carry captions, the previous and next items stay out
      of `pages`. */
  lemma NavigationStaysOutOfPages(p: Payload, decode: Decoder)
    requires UsePaginator(p, decode).Success?
    requires var raw := ResolveLinks(p).value;
      JsNumber.IsCaption(raw[0].text) && JsNumber.IsCaption(raw[|raw| - 1].text)
    ensures var vm := UsePaginator(p, decode).value;
      && vm.previous !in vm.pages
      && vm.next !in vm.pages
      && forall x :: x in vm.pages ==> !x.isPrevious && !x.isNext
  {
    CaptionedEndsAreUnlisted(p, decode);
    UnlistedEndsStayOutOfPages(p, decode);
  }

  /** A page number is listed in `pages`, and so is the separator. */
  lemma PageNumbersAreListed(p: Payload, decode: Decoder, i: nat)
    requires UsePaginator(p, decode).Success?
    requires i < |ResolveLinks(p).value|
    requires var t := ResolveLinks(p).value[i].text;
      t == "..." || (|t| > 0 && forall k :: 0 <= k < |t| ==> JsNumber.IsDecimalDigit(t[k]))
    ensures var vm := UsePaginator(p, decode).value;
      i < |vm.items| && vm.items[i] in vm.pages
  {
    var t := ResolveLinks(p).value[i].text;
    ItemFlags(p, decode);
    PagesAreListedItems(p, decode);
    if t != "..." {
      JsNumber.DigitStringIsNumeric(t);
    }
  }

  /** The first item flagged current is the one of the first active link. */
  lemma CurrentIsFirstActive(links: seq<Link>, k: nat)
    requires k < |links| && links[k].active
    requires forall j :: 0 <= j < k ==> !links[j].active
    ensures Find(ClassifyAll(links), Current) == Some(ClassifyAll(links)[k])
  {
    var items := ClassifyAll(links);
    var idx := FindIndex(items, Current);
    assert HasFlag(items[k], Current);
    assert idx.Some? && idx.value <= k;
    assert links[idx.value].active;
    assert idx.value == k;
  }

  /** `first` copies `items[1]` and `last` copies the last item, each with every
      field unchanged except the caption, which becomes a glyph, and `isActive`. */
  lemma ShortcutsCopyItems(p: Payload, decode: Decoder)
    requires UsePaginator(p, decode).Success?
    ensures var vm := UsePaginator(p, decode).value;
      var n := |vm.items|;
      && vm.first.(text := vm.items[1].text, isActive := vm.items[1].isActive) == vm.items[1]
      && vm.last.(text := vm.items[n - 1].text, isActive := vm.items[n - 1].isActive) == vm.items[n - 1]
      && vm.first.text == "&laquo;"
      && vm.last.text == "&raquo;"
  {
    SuccessIsView(p, decode);
  }

  /** With no active link there is no current item, and both shortcuts are active. */
  lemma ShortcutsWithoutCurrent(p: Payload, decode: Decoder)
    requires UsePaginator(p, decode).Success?
    requires forall i :: 0 <= i < |ResolveLinks(p).value| ==> !ResolveLinks(p).value[i].active
    ensures UsePaginator(p, decode).value.first.isActive
    ensures UsePaginator(p, decode).value.last.isActive
  {
    SuccessIsView(p, decode);
    var raw := ResolveLinks(p).value;
    var links := NormaliseLinks(raw, decode).value;
    var items := ClassifyAll(links);
    assert forall j :: 0 <= j < |items| ==> !HasFlag(items[j], Current) by {
      forall j | 0 <= j < |items| ensures !HasFlag(items[j], Current) {
        assert links[j].active == raw[j].active;
      }
    }
    assert Find(items, Current).None?;
  }

  /** When link `k` is the first active one, each shortcut is active exactly when
      its URL differs from that item's URL. */
  lemma ShortcutsAgainstCurrent(p: Payload, decode: Decoder, k: nat)
    requires UsePaginator(p, decode).Success?
    requires k < |ResolveLinks(p).value|
    ensures var raw := ResolveLinks(p).value;
      var vm := UsePaginator(p, decode).value;
      var n := |vm.items|;
      raw[k].active && (forall j :: 0 <= j < k ==> !raw[j].active) ==>
        && k < n
        && (vm.first.isActive <==> vm.items[1].url != vm.items[k].url)
        && (vm.last.isActive <==> vm.items[n - 1].url != vm.items[k].url)
  {
    var raw := ResolveLinks(p).value;
    if raw[k].active && forall j :: 0 <= j < k ==> !raw[j].active {
      SuccessIsView(p, decode);
      var links := NormaliseLinks(raw, decode).value;
      forall j | 0 <= j < k
        ensures !links[j].active
      {
        assert links[j].active == raw[j].active;
      }
      ViewShortcutsAgainstFirstActive(links, ResolveMeta(p), k);
    }
  }

  /** The view of normalised links whose first active one is link `k`: the current
      item is item `k`, and each shortcut is active exactly when its URL differs
      from item `k`'s. */
  lemma ViewShortcutsAgainstFirstActive(links: seq<Link>, meta: Meta, k: nat)
    requires 2 <= |links| && k < |links| && links[k].active
    requires forall j :: 0 <= j < k ==> !links[j].active
    ensures var vm := View(links, meta);
      var n := |vm.items|;
      && (vm.first.isActive <==> vm.items[1].url != vm.items[k].url)
      && (vm.last.isActive <==> vm.items[n - 1].url != vm.items[k].url)
  {
    CurrentIsFirstActive(links, k);
    ViewShortcutsFollowCurrent(links, meta);
  }

  /** The shortcuts of a view are built against the current item. */
  lemma ViewShortcutsFollowCurrent(links: seq<Link>, meta: Meta)
    requires 2 <= |links|
    ensures var vm := View(links, meta);
      var n := |vm.items|;
      && vm.items == ClassifyAll(links)
      && vm.first == Shortcut(vm.items[1], FirstCaption, Find(vm.items, Current))
      && vm.last == Shortcut(vm.items[n - 1], LastCaption, Find(vm.items, Current))
  {
  }

  /** `total`, `from` and `to` come unchanged from `meta` when the payload nests
      one, and from the payload itself otherwise; so do the links, unless `meta`
      has none, in which case the top-level `links` are used. */
  lemma MetaPassesThrough(p: Payload, decode: Decoder)
    ensures ResolveLinks(p) ==
      if p.meta.Some? && p.meta.value.links.Some? then p.meta.value.links else p.fields.links
    ensures UsePaginator(p, decode).Success? ==>
      var vm := UsePaginator(p, decode).value;
      var source := if p.meta.Some? then p.meta.value else p.fields;
      vm.total == source.total && vm.from == source.from && vm.to == source.to
  {
  }

  /** A nested payload whose `meta` carries the links behaves as the flattened
      payload made of that `meta`, whatever else sits at the top level. */
  lemma NestedMatchesFlattened(m: Meta, top: Meta, decode: Decoder)
    requires m.links.Some?
    ensures UsePaginator(Payload(Some(m), top), decode) == UsePaginator(Payload(None, m), decode)
  {
  }

  /** A nested payload whose `meta` has no links takes them from the top level:
      it behaves as the flattened payload made of `meta` with those links. */
  lemma NestedFallsBackToTopLevelLinks(m: Meta, top: Meta, decode: Decoder)
    requires m.links.None?
    ensures UsePaginator(Payload(Some(m), top), decode)
         == UsePaginator(Payload(None, m.(links := top.links)), decode)
  {
  }
}
