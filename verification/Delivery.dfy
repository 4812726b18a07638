/** Responses in pages: cursors, pagination, and following the cursors to the end. */
module Delivery {
  import opened Wrappers
  import opened Sequences
  import opened Json
  import opened JsonChunks

  datatype PageError = MalformedCursor | NegativeCursor | StaleCursor | CursorMismatch | MaxItemsOutOfRange | MaxCharsOutOfRange | TooLarge

  const SCHEMA_VERSION := 3

  /** A cursor as its decoded payload; `Garbage` is text that does not decode to one. */
  datatype Cursor = NoCursor | Garbage | Token(revision: string, offset: int, fingerprint: string, schema: int)

  datatype Page = Page(returned: nat, total: nat, truncated: bool, nextCursor: Cursor)

  function EncodeCursor(revision: string, offset: int, fingerprint: string): Result<Cursor, PageError> {
    if offset < 0 then Failure(NegativeCursor) else Success(Token(revision, offset, fingerprint, SCHEMA_VERSION))
  }

  function DecodeCursor(cursor: Cursor, revision: string, fingerprint: string): Result<int, PageError> {
    if !cursor.Token? || cursor.schema != SCHEMA_VERSION then Failure(MalformedCursor)
    else if cursor.offset < 0 then Failure(NegativeCursor)
    else if cursor.revision != revision then Failure(StaleCursor)
    else if cursor.fingerprint != fingerprint then Failure(CursorMismatch)
    else Success(cursor.offset)
  }

  /** A cursor leads back to its offset for the revision and the request that it was made for,
      and for no other. */
  lemma {:induction false} CursorRoundTrip(revision: string, offset: int, fingerprint: string, nowRevision: string, nowFingerprint: string)
    ensures EncodeCursor(revision, offset, fingerprint).Success? <==> offset >= 0
    ensures offset >= 0 ==>
              (DecodeCursor(EncodeCursor(revision, offset, fingerprint).value, nowRevision, nowFingerprint) == Success(offset)
               <==> nowRevision == revision && nowFingerprint == fingerprint)
    ensures offset >= 0 && nowRevision != revision ==>
              DecodeCursor(EncodeCursor(revision, offset, fingerprint).value, nowRevision, nowFingerprint) == Failure(StaleCursor)
  {
  }

  // ----- sizes of lists -----

  function ItemsOf(s: seq<Value>): Items {
    if s == [] then End else Cons(s[0], ItemsOf(s[1..]))
  }

  /** The characters of a list of items, with the brackets and the commas. */
  function ListChars(s: seq<Value>): nat {
    if s == [] then 2
    else ListChars(s[..|s| - 1]) + (if |s| > 1 then 1 else 0) + |Dumps(s[|s| - 1])|
  }

  lemma {:induction false} ListCharsCount(s: seq<Value>)
    ensures ListChars(s) == |Dumps(List(ItemsOf(s)))|
  {
    if s != [] {
      var rest := s[..|s| - 1];
      ListCharsCount(rest);
      LastItem(rest, s[|s| - 1]);
      assert s == rest + [s[|s| - 1]];
    }
  }

  lemma {:induction false} LastItem(s: seq<Value>, v: Value)
    ensures |DumpsItems(ItemsOf(s + [v]))| == |DumpsItems(ItemsOf(s))| + (if s == [] then 0 else 1) + |Dumps(v)|
  {
    if s == [] {
      assert (s + [v])[1..] == [];
    } else {
      assert (s + [v])[1..] == s[1..] + [v];
      LastItem(s[1..], v);
      assert ItemsOf(s[1..] + [v]).Cons?;
    }
  }

  /** Each item of a list takes part of its characters. */
  lemma {:induction false} MemberFits(s: seq<Value>, i: nat)
    requires i < |s|
    ensures |Dumps(s[i])| + 2 <= ListChars(s)
    ensures 2 <= ListChars(s)
  {
    if i < |s| - 1 {
      MemberFits(s[..|s| - 1], i);
    } else {
      ListCharsCount(s[..|s| - 1]);
    }
  }

  // ----- one page -----

  /** The page from `offset` takes as many items as the two budgets allow. */
  ghost predicate Fills(items: seq<Value>, offset: nat, n: nat, maxItems: int, maxChars: int) {
    && offset + n <= |items| && n <= maxItems
    && ListChars(items[offset..offset + n]) <= maxChars
    && (offset + n < |items| && n < maxItems ==> ListChars(items[offset..offset + n + 1]) > maxChars)
  }

  lemma {:induction false} OneMore(items: seq<Value>, offset: nat, end: nat, next: nat)
    requires offset <= end < |items| && next == end + 1
    ensures items[offset..next] == items[offset..end] + [items[end]]
    ensures ListChars(items[offset..next]) == ListChars(items[offset..end]) + (if offset < end then 1 else 0) + |Dumps(items[end])|
  {
    assert items[offset..next][..end - offset] == items[offset..end];
  }

  lemma {:induction false} FillsUpTo(items: seq<Value>, offset: nat, end: nat, next: nat, n: nat, maxItems: int, maxChars: int)
    requires offset <= end <= |items| && next == end + 1 && n == end - offset
    requires n <= maxItems && ListChars(items[offset..end]) <= maxChars
    requires end < |items| && n < maxItems ==> ListChars(items[offset..next]) > maxChars
    ensures Fills(items, offset, n, maxItems, maxChars) && items[offset..offset + n] == items[offset..end]
  {
    assert offset + n == end && offset + n + 1 == next;
  }

  /** The items of the page that starts at `offset`. */
  method SelectItems(items: seq<Value>, offset: nat, maxItems: int, maxChars: int) returns (r: Result<seq<Value>, PageError>)
    requires offset <= |items| && maxItems >= 1 && maxChars >= 2
    ensures r.Failure? ==> r.error == TooLarge && exists i :: offset <= i < |items| && !Fits(items[i], maxChars)
    ensures r.Success? ==> Fills(items, offset, |r.value|, maxItems, maxChars) && r.value == items[offset..offset + |r.value|]
    ensures r.Success? && offset < |items| ==> r.value != []
  {
    var selected: seq<Value> := [];
    var selectedChars := 2;
    for index := offset to |items|
      invariant |selected| == index - offset <= maxItems && selected == items[offset..index]
      invariant selectedChars == ListChars(selected) <= maxChars
    {
      ghost var next := index + 1;
      if |selected| >= maxItems {
        FillsUpTo(items, offset, index, next, |selected|, maxItems, maxChars);
        return Success(selected);
      }
      OneMore(items, offset, index, next);
      var itemChars := |Dumps(items[index])|;
      var separatorChars := if |selected| > 0 then 1 else 0;
      if itemChars > maxChars {
        assert !Fits(items[index], maxChars);
        return Failure(TooLarge);
      }
      if selectedChars + separatorChars + itemChars > maxChars {
        if |selected| == 0 {
          assert !Fits(items[index], maxChars);
          return Failure(TooLarge);
        }
        FillsUpTo(items, offset, index, next, |selected|, maxItems, maxChars);
        return Success(selected);
      }
      selected := selected + [items[index]];
      selectedChars := selectedChars + separatorChars + itemChars;
      assert selected == items[offset..next];
    }
    FillsUpTo(items, offset, |items|, |items| + 1, |selected|, maxItems, maxChars);
    r := Success(selected);
  }

  method PaginateItems(items: seq<Value>, revision: string, fingerprint: string, maxItems: int, maxChars: int, cursor: Cursor)
    returns (r: Result<(Page, seq<Value>), PageError>)
    ensures !(1 <= maxItems <= 50) ==> r == Failure(MaxItemsOutOfRange)
    ensures 1 <= maxItems <= 50 && !(256 <= maxChars <= 40000) ==> r == Failure(MaxCharsOutOfRange)
    ensures 1 <= maxItems <= 50 && 256 <= maxChars <= 40000 ==>
              var start := if cursor.NoCursor? then Success(0) else DecodeCursor(cursor, revision, fingerprint);
              if start.Failure? then r == Failure(start.error)
              else if start.value > |items| then r == Failure(MalformedCursor)
              else IsPage(items, revision, fingerprint, maxItems, maxChars, start.value, r)
  {
    if !(1 <= maxItems <= 50) {
      return Failure(MaxItemsOutOfRange);
    }
    if !(256 <= maxChars <= 40000) {
      return Failure(MaxCharsOutOfRange);
    }
    var start := if cursor.NoCursor? then Success(0) else DecodeCursor(cursor, revision, fingerprint);
    if start.Failure? {
      return Failure(start.error);
    }
    var offset := start.value;
    if offset > |items| {
      return Failure(MalformedCursor);
    }
    var chosen := SelectItems(items, offset, maxItems, maxChars);
    if chosen.Failure? {
      return Failure(chosen.error);
    }
    var selected := chosen.value;
    var nextOffset := offset + |selected|;
    var truncated := nextOffset < |items|;
    var nextCursor := if truncated then EncodeCursor(revision, nextOffset, fingerprint) else Success(NoCursor);
    r := Success((Page(|selected|, |items|, truncated, nextCursor.value), selected));
  }

  /** A page is as full as the budgets allow and names where the next one starts; it fails only
      for an item at or behind the offset that does not fit alone. */
  ghost predicate IsPage(items: seq<Value>, revision: string, fingerprint: string, maxItems: int, maxChars: int, offset: nat,
                         r: Result<(Page, seq<Value>), PageError>)
  {
    if r.Failure? then r.error == TooLarge && exists i :: offset <= i < |items| && !Fits(items[i], maxChars)
    else
      var page, selected := r.value.0, r.value.1;
      && Fills(items, offset, |selected|, maxItems, maxChars)
      && selected == items[offset..offset + |selected|]
      && (offset + |selected| < |items| ==> |selected| >= 1)
      && page == Page(|selected|, |items|, offset + |selected| < |items|,
                      if offset + |selected| < |items| then Token(revision, offset + |selected|, fingerprint, SCHEMA_VERSION) else NoCursor)
  }

  // ----- all pages -----

  ghost predicate WithinBudgets(pages: seq<seq<Value>>, maxItems: int, maxChars: int) {
    forall p :: p in pages ==> |p| <= maxItems && |Dumps(List(ItemsOf(p)))| <= maxChars
  }

  /** Following the cursors from the empty one ends. It yields every item once and in order, in
      pages within the budgets of which only the last may be empty, if and only if every item
      fits alone. */
  method FetchAll(items: seq<Value>, revision: string, fingerprint: string, maxItems: int, maxChars: int)
    returns (r: Result<seq<Value>, PageError>, pages: seq<seq<Value>>)
    requires 1 <= maxItems <= 50 && 256 <= maxChars <= 40000
    ensures r.Success? <==> AllFit(items, maxChars)
    ensures r.Success? ==> r.value == items
    ensures r.Success? ==> Flatten(pages) == items
    ensures r.Failure? ==> r.error == TooLarge
    ensures WithinBudgets(pages, maxItems, maxChars)
    ensures forall k :: 0 <= k < |pages| - 1 ==> pages[k] != []
  {
    var cursor := NoCursor;
    pages := [];
    var received: seq<Value> := [];
    assert items[..0] == [];
    while true
      invariant Follows(items, revision, fingerprint, maxItems, maxChars, cursor, received, pages)
      decreases |items| - |received|
    {
      var answer := PaginateItems(items, revision, fingerprint, maxItems, maxChars, cursor);
      PageFails(items, revision, fingerprint, maxItems, maxChars, cursor, received, pages, answer);
      if answer.Failure? {
        return Failure(answer.error), pages;
      }
      var page, selected := answer.value.0, answer.value.1;
      if page.truncated {
        NextPage(items, revision, fingerprint, maxItems, maxChars, cursor, received, pages, answer);
      } else {
        LastPage(items, revision, fingerprint, maxItems, maxChars, cursor, received, pages, answer);
      }
      received := received + selected;
      pages := pages + [selected];
      if !page.truncated {
        return Success(received), pages;
      }
      cursor := page.nextCursor;
    }
  }

  /** What has been received when the cursor is asked for. */
  ghost predicate Follows(items: seq<Value>, revision: string, fingerprint: string, maxItems: int, maxChars: int, cursor: Cursor,
                          received: seq<Value>, pages: seq<seq<Value>>)
  {
    && |received| <= |items| && received == items[..|received|] && Flatten(pages) == received
    && cursor == (if |received| == 0 then NoCursor else Token(revision, |received|, fingerprint, SCHEMA_VERSION))
    && AllFit(received, maxChars)
    && WithinBudgets(pages, maxItems, maxChars) && forall p :: p in pages ==> p != []
  }

  lemma {:induction false} PageFails(items: seq<Value>, revision: string, fingerprint: string, maxItems: int, maxChars: int, cursor: Cursor,
      received: seq<Value>, pages: seq<seq<Value>>, answer: Result<(Page, seq<Value>), PageError>)
    requires Follows(items, revision, fingerprint, maxItems, maxChars, cursor, received, pages)
    requires IsPage(items, revision, fingerprint, maxItems, maxChars, |received|, answer)
    ensures answer.Failure? ==> answer.error == TooLarge && !AllFit(items, maxChars)
  {
    if answer.Failure? {
      var i :| |received| <= i < |items| && !Fits(items[i], maxChars);
      assert items[i] in items;
    }
  }

  lemma {:induction false} PageArrives(items: seq<Value>, revision: string, fingerprint: string, maxItems: int, maxChars: int, cursor: Cursor,
      received: seq<Value>, pages: seq<seq<Value>>, answer: Result<(Page, seq<Value>), PageError>)
    requires Follows(items, revision, fingerprint, maxItems, maxChars, cursor, received, pages)
    requires IsPage(items, revision, fingerprint, maxItems, maxChars, |received|, answer)
    requires answer.Success?
    ensures |received + answer.value.1| <= |items| && received + answer.value.1 == items[..|received + answer.value.1|]
    ensures Flatten(pages + [answer.value.1]) == received + answer.value.1
    ensures AllFit(received + answer.value.1, maxChars) && WithinBudgets(pages + [answer.value.1], maxItems, maxChars)
  {
    var selected := answer.value.1;
    ReceivedMore(items, |received|, pages, selected, maxItems, maxChars);
    assert forall v :: v in received + selected ==> v in received || v in selected;
  }

  lemma {:induction false} NextPage(items: seq<Value>, revision: string, fingerprint: string, maxItems: int, maxChars: int, cursor: Cursor,
      received: seq<Value>, pages: seq<seq<Value>>, answer: Result<(Page, seq<Value>), PageError>)
    requires Follows(items, revision, fingerprint, maxItems, maxChars, cursor, received, pages)
    requires IsPage(items, revision, fingerprint, maxItems, maxChars, |received|, answer)
    requires answer.Success? && answer.value.0.truncated
    ensures answer.value.1 != [] && |received + answer.value.1| <= |items|
    ensures Follows(items, revision, fingerprint, maxItems, maxChars, answer.value.0.nextCursor, received + answer.value.1, pages + [answer.value.1])
  {
    PageArrives(items, revision, fingerprint, maxItems, maxChars, cursor, received, pages, answer);
  }

  lemma {:induction false} LastPage(items: seq<Value>, revision: string, fingerprint: string, maxItems: int, maxChars: int, cursor: Cursor,
      received: seq<Value>, pages: seq<seq<Value>>, answer: Result<(Page, seq<Value>), PageError>)
    requires Follows(items, revision, fingerprint, maxItems, maxChars, cursor, received, pages)
    requires IsPage(items, revision, fingerprint, maxItems, maxChars, |received|, answer)
    requires answer.Success? && !answer.value.0.truncated
    ensures received + answer.value.1 == items && AllFit(items, maxChars) && Flatten(pages + [answer.value.1]) == items
    ensures WithinBudgets(pages + [answer.value.1], maxItems, maxChars)
  {
    PageArrives(items, revision, fingerprint, maxItems, maxChars, cursor, received, pages, answer);
    assert items[..|items|] == items;
  }

  lemma {:induction false} ReceivedMore(items: seq<Value>, from: nat, pages: seq<seq<Value>>, selected: seq<Value>, maxItems: int, maxChars: int)
    requires from + |selected| <= |items| && selected == items[from..from + |selected|] && Flatten(pages) == items[..from]
    requires |selected| <= maxItems && ListChars(selected) <= maxChars && WithinBudgets(pages, maxItems, maxChars)
    ensures Flatten(pages + [selected]) == items[..from + |selected|] == items[..from] + selected
    ensures WithinBudgets(pages + [selected], maxItems, maxChars)
    ensures AllFit(selected, maxChars)
  {
    FlattenAppend(pages, selected);
    ListCharsCount(selected);
    forall v | v in selected
      ensures Fits(v, maxChars)
    {
      var i :| 0 <= i < |selected| && selected[i] == v;
      MemberFits(selected, i);
    }
  }

  /** From any items to all pages: everything arrives once and in order, whole or as chunks that
      rejoin, for items that fit or take fewer than a million pieces. */
  method Deliver(items: seq<Value>, revision: string, fingerprint: string, maxItems: int, maxChars: int)
    returns (r: Result<seq<Value>, PageError>, pages: seq<seq<Value>>, ghost groups: seq<seq<Value>>)
    requires 1 <= maxItems <= 50 && 256 <= maxChars <= 40000
    ensures AllManageable(items, maxChars) ==> r.Success?
    ensures r.Success? ==> r.value == Flatten(pages) == Flatten(groups) && |groups| == |items|
    ensures r.Success? ==> forall i :: 0 <= i < |items| ==>
              groups[i] == [items[i]] || (Rejoined(groups[i]) == Dumps(items[i]) && !Fits(items[i], maxChars))
    ensures WithinBudgets(pages, maxItems, maxChars)
  {
    pages := [];
    var prepared;
    prepared, groups := PrepareItems(items, maxChars);
    if prepared.Failure? {
      return Failure(TooLarge), pages, groups;
    }
    forall i | 0 <= i < |items|
      ensures groups[i] == [items[i]] || (Rejoined(groups[i]) == Dumps(items[i]) && !Fits(items[i], maxChars))
    {
      if !Fits(items[i], maxChars) {
        ChunkingRejoins(items[i], groups[i], maxChars);
      }
    }
    r, pages := FetchAll(prepared.value, revision, fingerprint, maxItems, maxChars);
  }
}
