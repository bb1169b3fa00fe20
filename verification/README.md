# usePaginator in Dafny

A model of `usePaginator`, the one function of the paginator hook. It turns a
Laravel-style pagination payload into a view model ready to render, and it
proves what that view model promises about the payload it came from.

The function works in five steps, and the model follows the same steps.

1. **Resolve.** The metadata object is the nested `meta` when present, and the
   payload itself otherwise. The link list is `meta.links`, or else the
   top-level `links`.
2. **Normalise.** Each link URL passes through `url ? decodeURIComponent(url) :
   null`. In the model, `null`, `undefined` and `""` all become `None`.
3. **Classify.** Each link becomes an item. The flags depend on the link's
   position, its label, its URL and its `active` flag.
4. **Derive.**
   - `pages` is the filter of the items by `isPage || isSeparator`.
   - `previous` and `next` are the first items flagged as such.
   - `first` and `last` copy `items[1]` and the final item, with a new caption
     and an `isActive` that compares the URL against the current item's.
5. **Pass through.** `total`, `from` and `to` are copied from the resolved
   metadata.

Modules:

- `Wrappers` (wrappers.dfy): `Option` and `Result`.
- `JsNumber` (jsnumber.dfy): `!isNaN(+label)`, the test behind `isPage`. It is
  a finite automaton for the StringNumericLiteral grammar of section 7.1.4.1.1
  of ECMA-262, with its white-space set from sections 12.2 and 12.3.
- `Paginator` (paginator.dfy): the records and the transformation.
  - The JavaScript exceptions become `Error` values.
  - `label` is the field `text`, because `label` is a reserved word in Dafny.
- `PaginatorProperties` (properties.dfy): the properties of the result, stated
  against the payload.
- `Scenarios` (scenarios.dfy):
  - concrete payloads of the shape Laravel sends;
  - the two-link edge case;
  - the behaviour of `last` on the final page.

### Errors

The code raises exceptions in three places, and the model keeps their order.

1. `MissingLinkList`: neither `meta.links` nor `links` is present, so `.map`
   runs on `undefined` (src/index.ts:42).
2. `MalformedUrl(i)`: `decodeURIComponent` throws on link `i`, the first link
   whose URL does not decode (src/index.ts:45).
3. `InsufficientLinks(n)`: the list holds fewer than two links, so
   `items[1].url` fails (src/index.ts:72).

### Edge cases of the code

- **A list of exactly two links is accepted.** The code fails only when there
  are fewer than two links, at `items[1]` (src/index.ts:72). With two links,
  `items[1]` is the next link, so `first` and `last` both copy it
  (`Scenarios.TwoLinksAreAccepted`).
- **An empty link list is `InsufficientLinks(0)`, not `MissingLinkList`.** `??`
  falls back only on `null` and `undefined` (src/index.ts:42). An empty
  `meta.links` is therefore used as it is, and the failure comes later, at
  `items[1]`.
- **A URL that does not decode is an error.** `decodeURIComponent` throws a
  URIError on a malformed escape sequence (src/index.ts:45), and the call fails
  with `MalformedUrl`.

## Model

| member | source | states |
|---|---|---|
| Paginator.UsePaginator | src/index.ts:39-87 | the call fails with a missing link list exactly when neither `meta.links` nor `links` is present; on success there are at least two items, one per resolved link, `previous` is the first item and `next` the last |
| Paginator.Transform | src/index.ts:42-86 | after resolution: fails for a missing list exactly when there is none; on success there is one item per raw link and at least two |
| Paginator.View | src/index.ts:49-86 | one item per normalised link; the `find` for `isPrevious` lands on item 0 and the `find` for `isNext` on the last item |
| Paginator.ResolveLinks | src/index.ts:40-42 | the link list is absent exactly when both the resolved metadata's links and the top-level links are absent; the metadata's links win when present, and otherwise the top-level links are used |
| Paginator.ResolveMeta | src/index.ts:40 | `data.meta ?? data`: the nested `meta` when present, else the payload's own fields; `MetaPassesThrough` states what the result takes from it |
| Paginator.NormaliseLinks | src/index.ts:42-47 | on success, the same number of links with only each URL replaced by its normal form; on failure, the index of the first link whose URL does not decode, every earlier one decoding |
| Paginator.Classify | src/index.ts:50-59 | the item of one link at position `index` of `count`; `ItemAt` and `ItemFlags` state each field against the link |
| Paginator.ClassifyAll | src/index.ts:49-60 | one item per link, in order, item `i` classifying link `i` at position `i`; `ItemFlags` states every flag against the links |
| Paginator.Pages | src/index.ts:62-64 | an item is in `pages` exactly when it is in `items` and is a page or the separator, and `pages` is no longer than `items` |
| Paginator.FindIndex | src/index.ts:66-68 | the index found carries the flag and no earlier item does; when none is found, no item carries the flag |
| Paginator.Find | src/index.ts:66-68 | the item found is the first item that carries the flag: it is one of the items, it carries the flag and no earlier item does; nothing is found exactly when no item carries it |
| Paginator.Shortcut | src/index.ts:70-80 | the shortcut takes the new caption, is active exactly when there is no current item or its URL differs from the current item's, and agrees with the copied item on every other field |
| PaginatorProperties.SuccessIsView | src/index.ts:39-87 | a successful call resolved a link list that normalised into at least two links, and its result is the view of those links |
| PaginatorProperties.FailureCases | src/index.ts:42-72 | the error taxonomy and its order: missing list first, then the first URL that does not decode, then a list shorter than two; a resolved list with a URL that does not decode always fails with `MalformedUrl`; the call succeeds exactly when every URL decodes and there are at least two links |
| PaginatorProperties.ItemsFollowLinks | src/index.ts:42-60 | one item per resolved link, in order, each with the link's caption and the link's URL decoded once, blank URLs becoming `None` |
| PaginatorProperties.ItemAt | src/index.ts:49-60 | the item at position `i` in terms of link `i` and `i` alone: caption, URL, every flag |
| PaginatorProperties.ItemFlags | src/index.ts:54-58 | `isPrevious` exactly at index 0, `isNext` exactly at the last index, `isCurrent` equals `active`, `isActive` exactly for a non-blank URL on an inactive link, `isSeparator` exactly for the caption `...`, `isPage` exactly for a numeric caption |
| PaginatorProperties.PositionsIgnoreContent | src/index.ts:54-55 | two link lists of the same length get the same `isPrevious` and `isNext` flags, whatever their captions, URLs and `active` flags |
| PaginatorProperties.UniquePreviousAndNext | src/index.ts:54-68 | no two items are both flagged previous, nor both next; `previous` is flagged previous and not next, and `next` the other way round |
| PaginatorProperties.PagesFrom | src/index.ts:62-64 | the filter of the items from position `lo` on equals the items gathered at the listed positions from `lo` on |
| PaginatorProperties.ListedIndicesComplete | src/index.ts:62-64 | the reference list of listed positions skips no listed position |
| PaginatorProperties.PagesAreListedItems | src/index.ts:62-64 | `pages` is exactly the listed items in their original order, one per listed position, and it holds an item exactly when that item is in `items` and is a page or the separator |
| PaginatorProperties.CaptionedItemIsNotListed | src/index.ts:53-63 | an item whose link carries a caption such as `Next &raquo;` is neither a page nor the separator |
| PaginatorProperties.CaptionedEndsAreUnlisted | src/index.ts:53-63 | when both end links carry captions, neither end item is listed |
| PaginatorProperties.UnlistedEndsStayOutOfPages | src/index.ts:62-68 | when neither end item is listed, `previous` and `next` are not in `pages`, and no item of `pages` is flagged previous or next |
| PaginatorProperties.NavigationStaysOutOfPages | src/index.ts:53-68 | when both end links carry captions, the previous and next items stay out of `pages` |
| PaginatorProperties.PageNumbersAreListed | src/index.ts:53-64 | an item whose caption is a page number, or the separator, is in `pages` |
| PaginatorProperties.CurrentIsFirstActive | src/index.ts:66 | the current item is the item of the first active link |
| PaginatorProperties.ShortcutsCopyItems | src/index.ts:70-80 | `first` is `items[1]` and `last` the final item, with only the caption and `isActive` changed; the captions are `&laquo;` and `&raquo;` |
| PaginatorProperties.ShortcutsWithoutCurrent | src/index.ts:66-80 | with no active link there is no current item, and both shortcuts are active |
| PaginatorProperties.ShortcutsAgainstCurrent | src/index.ts:66-80 | when link `k` is the first active one, each shortcut is active exactly when its URL differs from item `k`'s |
| PaginatorProperties.ViewShortcutsAgainstFirstActive | src/index.ts:66-80 | the same for the view of normalised links: when link `k` is active and no earlier link is, the view's shortcuts are active exactly when their URL differs from item `k`'s |
| PaginatorProperties.MetaPassesThrough | src/index.ts:40-86 | the links come from `meta` when it has them and from the top level otherwise; `total`, `from` and `to` equal those of the nested `meta` when present and of the payload itself otherwise |
| PaginatorProperties.NestedMatchesFlattened | src/index.ts:40-42 | a nested payload whose `meta` has links gives the same result as the flattened payload made of that `meta`, whatever else is at the top level |
| PaginatorProperties.NestedFallsBackToTopLevelLinks | src/index.ts:40-42 | a nested payload whose `meta` has no links gives the same result as the flattened payload made of `meta` with the top-level links |
| JsNumber.IsNumericLabel | src/index.ts:53 | `!isNaN(+label)`, decided by an automaton for the StringNumericLiteral grammar; `DigitStringIsNumeric`, `BlankLabelIsNumeric`, `EllipsisIsNotNumeric`, `OpeningRejects` and `CaptionIsNotNumeric` state its values |
| JsNumber.DigitStringIsNumeric | src/index.ts:53 | a non-empty string of decimal digits, such as a page number, is numeric |
| JsNumber.BlankLabelIsNumeric | src/index.ts:53 | an empty or all-white-space caption is numeric, since `+""` is 0 |
| JsNumber.EllipsisIsNotNumeric | src/index.ts:53 | the separator `...` is not numeric |
| JsNumber.CaptionIsNotNumeric | src/index.ts:53-57 | a caption whose first visible character cannot open a number is neither numeric nor the separator |
| JsNumber.OpeningRejects | src/index.ts:53 | a caption whose first character is neither white space nor able to open a number is not numeric |
| JsNumber.LeadSkipsWhiteSpace | src/index.ts:53 | leading white space does not change whether a caption is numeric |
| Scenarios.FirstOfTwoView | src/index.ts:39-87 | page 1 of 2 in the flattened shape: `pages` holds the two page numbers, `first` is inactive because it points at the current page, `last` is active, and `total`, `from` and `to` pass through |
| Scenarios.ViewOfFour | src/index.ts:62-80 | with captions at both ends and page numbers between, the second link being current: `pages` is the two middle items, `first` is inactive and `last` active |
| Scenarios.TwoLinksAreAccepted | src/index.ts:70-80 | a list of only the two caption links succeeds with no pages, and `first` and `last` are both copies of the next link, both active |
| Scenarios.ViewOfTwo | src/index.ts:62-80 | two unlisted, inactive links: `pages` is empty and both shortcuts copy the second item and are active |
| Scenarios.LastPageEndsWithoutUrl | src/index.ts:45-80 | when the final link has no URL, neither `next` nor `last` has one, and `next` is inactive |
| Scenarios.LastActiveAgainstUrls | src/index.ts:76-79 | `last` is active when its URL differs from that of every active link |
| Scenarios.LastShortcutActiveWithoutUrl | src/index.ts:76-79 | on the last page `last` has no URL yet is active when the active links have URLs, while `next` is inactive |

## Left out

- `decodeURIComponent` is a parameter of type `string -> Option<string>`. `None`
  stands for the URIError it throws. Percent-decoding itself is not modelled.
- Only whether `+label` is NaN is modelled. The numeric value is never computed,
  because the function asks for nothing else.
- JavaScript strings are sequences of UTF-16 code units. The model uses Dafny
  characters, which are Unicode scalar values, so lone surrogates have no
  counterpart.
- `null` and `undefined` are one `None`, for URLs and for absent fields. The code
  collapses them in the URL normalisation and in `??`. For `from`, `to` and
  `total`, `None` stands for either, because the function only copies them.
- `from`, `to` and `total` are unbounded integers. JavaScript numbers are
  doubles, but the function never computes with them, only copies them.
- The generic `data` array is left out, because the function never reads it.
- The unused metadata fields (`current_page`, `last_page`, `path`, `per_page`
  and the `*_page_url` fields) are left out for the same reason.
- `current` is not part of the returned object, so the model computes it only as
  the first item flagged current. `CurrentIsFirstActive` states it.
- Extra fields on a link object are not modelled. Items are built field by
  field, so none of them reaches an item.
- Determinism and the absence of side effects hold by construction: every
  operation is a pure function.
