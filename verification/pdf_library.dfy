/** The PDF library page (src/pages/pdf/pdf-library.jsx): the user's PDFs as
    fetched from the server, a case-insensitive name search, three sort orders
    and totals over the whole list. The list shown is the stored list filtered
    by the search and then sorted with JavaScript's stable `Array.prototype.sort`;
    the totals are over the stored list, not the shown one. */
module PdfLibrary {
  import opened Base
  import opened Text

  /** A PDF record; `uploadedAt` is the upload time in milliseconds, as
      `new Date(uploadedAt).getTime()` reads it. */
  datatype Pdf = Pdf(id: string, name: string, size: nat, uploadedAt: int, chatCount: nat)

  datatype State = State(pdfs: seq<Pdf>, isLoading: bool, query: string, sortBy: string)

  const Init := State([], true, "", "date")

  /** `fetchPDFs` settling: an ok response replaces the list; whatever happens,
      loading ends. */
  function Fetched(s: State, reply: Reply<seq<Pdf>>): (r: State)
    ensures !r.isLoading
    ensures reply.Ok? ==> r.pdfs == reply.body
    ensures !reply.Ok? ==> r.pdfs == s.pdfs
    ensures r.query == s.query && r.sortBy == s.sortBy
  {
    match reply
    case Ok(pdfs) => s.(pdfs := pdfs, isLoading := false)
    case _ => s.(isLoading := false)
  }

  /** The test `pdf.id !== pdfId` the delete filter applies. */
  function OtherThan(id: string): Pdf -> bool
  {
    (p: Pdf) => p.id != id
  }

  function WithId(id: string): Pdf -> bool
  {
    (p: Pdf) => p.id == id
  }

  /** `handleDeletePDF` as written: a confirmed delete whose request comes back
      ok sets the list to the records `captured` when the delete began (the
      closure's `pdfs`) minus every record with that id. Whatever changed the list
      in between is overwritten. */
  function DeleteCaptured(s: State, captured: seq<Pdf>, id: string, confirmed: bool, reply: Reply<()>): (r: State)
    ensures !(confirmed && reply.Ok?) ==> r == s
    ensures confirmed && reply.Ok? ==>
              && (forall p :: p in r.pdfs <==> p in captured && p.id != id)
              && r.pdfs == Keep(captured, OtherThan(id))
    ensures r.query == s.query && r.sortBy == s.sortBy && r.isLoading == s.isLoading
  {
    if confirmed && reply.Ok? then s.(pdfs := Keep(captured, OtherThan(id))) else s
  }

  /** The lost update: two deletes started on the same list, both confirmed and
      both answered ok. The second one's captured list still holds the PDF the
      first removed, so that PDF comes back. */
  lemma {:induction false} OverlappingDeletesResurrect(a: Pdf, b: Pdf)
    requires a.id != b.id
    ensures var s := State([a, b], false, "", "date");
            var first := DeleteCaptured(s, s.pdfs, a.id, true, Ok(()));
            first.pdfs == [b] && DeleteCaptured(first, s.pdfs, b.id, true, Ok(())).pdfs == [a]
  {
    assert Keep([a, b], OtherThan(a.id)) == Keep([b], OtherThan(a.id));
    assert Keep([a, b], OtherThan(b.id)) == [a] + Keep([b], OtherThan(b.id));
  }

  /** The delete the rest of the model uses: the filter applies to the list as it
      stands when the response arrives (`setPdfs((prev) => prev.filter(...))`).
      Only a confirmed delete whose request comes back ok removes the PDF (every
      record with that id); the rest keep their order. */
  function Delete(s: State, id: string, confirmed: bool, reply: Reply<()>): (r: State)
    ensures !(confirmed && reply.Ok?) ==> r == s
    ensures confirmed && reply.Ok? ==>
              && (forall p :: p in r.pdfs <==> p in s.pdfs && p.id != id)
              && multiset(r.pdfs) <= multiset(s.pdfs)
              && r.pdfs == Keep(s.pdfs, OtherThan(id))
    ensures r.query == s.query && r.sortBy == s.sortBy && r.isLoading == s.isLoading
  {
    if confirmed && reply.Ok? then s.(pdfs := Keep(s.pdfs, OtherThan(id))) else s
  }

  /** With nothing else in flight, the delete as written and the corrected one
      agree. */
  lemma DeleteCapturedAlone(s: State, id: string, confirmed: bool, reply: Reply<()>)
    ensures DeleteCaptured(s, s.pdfs, id, confirmed, reply) == Delete(s, id, confirmed, reply)
  {
  }

  /** Overlapping deletes both take effect: neither PDF is left, and the others
      keep their order. */
  lemma {:induction false} OverlappingDeletesRemoveBoth(s: State, x: string, y: string)
    ensures var r := Delete(Delete(s, x, true, Ok(())), y, true, Ok(()));
            && (forall p :: p in r.pdfs <==> p in s.pdfs && p.id != x && p.id != y)
            && r.pdfs == Keep(Keep(s.pdfs, OtherThan(x)), OtherThan(y))
  {
  }

  /** Deleting the same id twice is deleting it once. */
  lemma {:induction false} DeleteIdempotent(s: State, id: string)
    ensures Delete(Delete(s, id, true, Ok(())), id, true, Ok(())) == Delete(s, id, true, Ok(()))
  {
    KeepIdempotent(s.pdfs, OtherThan(id));
  }

  // ---------------------------------------------------------------------------
  // Sorting.

  /** The three orders; any `sortBy` other than "name" and "chats" sorts by date. */
  datatype Key = ByName | ByChats | ByDate

  function KeyOf(sortBy: string): (k: Key)
    ensures k == ByName <==> sortBy == "name"
    ensures k == ByChats <==> sortBy == "chats"
  {
    if sortBy == "name" then ByName
    else if sortBy == "chats" then ByChats
    else ByDate
  }

  /** `a` may come before `b`: the comparator's result is not positive. Names
      ascend, chat counts and upload times descend. */
  predicate Le(k: Key, a: Pdf, b: Pdf)
  {
    match k
    case ByName => LexLe(a.name, b.name)
    case ByChats => a.chatCount >= b.chatCount
    case ByDate => a.uploadedAt >= b.uploadedAt
  }

  lemma LeTotal(k: Key, a: Pdf, b: Pdf)
    ensures Le(k, a, b) || Le(k, b, a)
  {
    if k == ByName {
      LexLeTotal(a.name, b.name);
    }
  }

  lemma LeTransitive(k: Key, a: Pdf, b: Pdf, c: Pdf)
    requires Le(k, a, b) && Le(k, b, c)
    ensures Le(k, a, c)
  {
    if k == ByName {
      LexLeTransitive(a.name, b.name, c.name);
    }
  }

  /** Neighbours are in order. */
  predicate Sorted(k: Key, xs: seq<Pdf>)
  {
    forall i :: 0 <= i < |xs| - 1 ==> Le(k, xs[i], xs[i + 1])
  }

  /** In a sorted list every element may come before every later one. */
  lemma {:induction false} SortedPairs(k: Key, xs: seq<Pdf>, i: nat, j: nat)
    requires Sorted(k, xs) && i < j < |xs|
    ensures Le(k, xs[i], xs[j])
    decreases j - i
  {
    if i + 1 < j {
      SortedPairs(k, xs, i + 1, j);
      LeTransitive(k, xs[i], xs[i + 1], xs[j]);
    }
  }

  /** Places `x` before the first element it may precede. */
  function Insert(k: Key, x: Pdf, ys: seq<Pdf>): (r: seq<Pdf>)
    ensures |r| == |ys| + 1
  {
    if |ys| == 0 then [x]
    else if Le(k, x, ys[0]) then [x] + ys
    else [ys[0]] + Insert(k, x, ys[1..])
  }

  /** Inserting into a sorted list keeps it sorted; the result starts with `x`
      or with the old head. */
  lemma {:induction false} InsertSorted(k: Key, x: Pdf, ys: seq<Pdf>)
    requires Sorted(k, ys)
    ensures Sorted(k, Insert(k, x, ys))
    ensures Insert(k, x, ys)[0] == x || (|ys| > 0 && Insert(k, x, ys)[0] == ys[0])
  {
    if |ys| > 0 && !Le(k, x, ys[0]) {
      LeTotal(k, x, ys[0]);
      InsertSorted(k, x, ys[1..]);
      var r := Insert(k, x, ys);
      assert r == [ys[0]] + Insert(k, x, ys[1..]);
      forall i | 0 <= i < |r| - 1
        ensures Le(k, r[i], r[i + 1])
      {
        if i > 0 {
          assert r[i] == Insert(k, x, ys[1..])[i - 1];
        }
      }
    }
  }

  /** Inserting adds `x` and loses nothing. */
  lemma {:induction false} InsertPermutes(k: Key, x: Pdf, ys: seq<Pdf>)
    ensures multiset(Insert(k, x, ys)) == multiset(ys) + multiset{x}
  {
    if |ys| > 0 && !Le(k, x, ys[0]) {
      InsertPermutes(k, x, ys[1..]);
      assert ys == [ys[0]] + ys[1..];
    }
  }

  /** A stable sort: see `SortStable`. */
  function Sort(k: Key, xs: seq<Pdf>): (r: seq<Pdf>)
    ensures multiset(r) == multiset(xs)
    ensures Sorted(k, r)
  {
    if |xs| == 0 then []
    else
      assert xs == [xs[0]] + xs[1..];
      InsertPermutes(k, xs[0], Sort(k, xs[1..]));
      InsertSorted(k, xs[0], Sort(k, xs[1..]));
      Insert(k, xs[0], Sort(k, xs[1..]))
  }

  /** The comparator cannot tell `p` and `c` apart. */
  predicate IsTied(k: Key, c: Pdf, p: Pdf)
  {
    Le(k, p, c) && Le(k, c, p)
  }

  /** The records of `xs` tied with `c`, in their order in `xs`. */
  function TiesOf(k: Key, c: Pdf, xs: seq<Pdf>): seq<Pdf>
  {
    if |xs| == 0 then []
    else (if IsTied(k, c, xs[0]) then [xs[0]] else []) + TiesOf(k, c, xs[1..])
  }

  lemma {:induction false} TiesOfAppend(k: Key, c: Pdf, a: seq<Pdf>, b: seq<Pdf>)
    ensures TiesOf(k, c, a + b) == TiesOf(k, c, a) + TiesOf(k, c, b)
  {
    if |a| == 0 {
      assert a + b == b;
    } else {
      assert (a + b)[1..] == a[1..] + b;
      TiesOfAppend(k, c, a[1..], b);
    }
  }

  /** Inserting `x` puts it in front of every record tied with it: the tied
      records in the result are `x` (if tied) followed by those of `ys`. */
  lemma {:induction false} InsertKeepsTies(k: Key, x: Pdf, ys: seq<Pdf>, c: Pdf)
    ensures TiesOf(k, c, Insert(k, x, ys)) == TiesOf(k, c, [x]) + TiesOf(k, c, ys)
  {
    if |ys| == 0 {
      assert Insert(k, x, ys) == [x];
    } else if Le(k, x, ys[0]) {
      TiesOfAppend(k, c, [x], ys);
    } else {
      InsertKeepsTies(k, x, ys[1..], c);
      assert Insert(k, x, ys) == [ys[0]] + Insert(k, x, ys[1..]);
      assert ys == [ys[0]] + ys[1..];
      TiesPastHead(k, c, x, ys[0], Insert(k, x, ys[1..]), ys[1..]);
    }
  }

  /** When insertion passes over `y`, putting `y` in front keeps the tied records
      of the rest in the same relation. */
  lemma TiesPastHead(k: Key, c: Pdf, x: Pdf, y: Pdf, mid: seq<Pdf>, rest: seq<Pdf>)
    requires !Le(k, x, y)
    requires TiesOf(k, c, mid) == TiesOf(k, c, [x]) + TiesOf(k, c, rest)
    ensures TiesOf(k, c, [y] + mid) == TiesOf(k, c, [x]) + TiesOf(k, c, [y] + rest)
  {
    TiesOfAppend(k, c, [y], mid);
    TiesOfAppend(k, c, [y], rest);
    PassedNotTied(k, c, x, y);
    SwapFront(TiesOf(k, c, [x]), TiesOf(k, c, [y]), TiesOf(k, c, rest));
  }

  /** Two front pieces that commute can be swapped in front of any rest. */
  lemma SwapFront(a: seq<Pdf>, b: seq<Pdf>, rest: seq<Pdf>)
    requires b + a == a + b
    ensures b + (a + rest) == a + (b + rest)
  {
    calc {
      b + (a + rest);
      (b + a) + rest;
      (a + b) + rest;
      a + (b + rest);
    }
  }

  /** A record that insertion passes over is never tied with the same record as
      the inserted one, so their tie contributions commute. */
  lemma PassedNotTied(k: Key, c: Pdf, x: Pdf, y: Pdf)
    requires !Le(k, x, y)
    ensures TiesOf(k, c, [y]) + TiesOf(k, c, [x]) == TiesOf(k, c, [x]) + TiesOf(k, c, [y])
  {
    if IsTied(k, c, x) && IsTied(k, c, y) {
      LeTransitive(k, x, c, y);
    }
  }

  /** The sort is stable: records that compare equal keep their relative order. */
  lemma {:induction false} SortStable(k: Key, xs: seq<Pdf>, c: Pdf)
    ensures TiesOf(k, c, Sort(k, xs)) == TiesOf(k, c, xs)
  {
    if |xs| > 0 {
      SortStable(k, xs[1..], c);
      InsertKeepsTies(k, xs[0], Sort(k, xs[1..]), c);
      assert xs == [xs[0]] + xs[1..];
      TiesOfAppend(k, c, [xs[0]], xs[1..]);
    }
  }

  // ---------------------------------------------------------------------------
  // What is shown.

  /** `pdf.name.toLowerCase().includes(searchQuery.toLowerCase())`. */
  function Matches(query: string): Pdf -> bool
  {
    (p: Pdf) => Contains(Lower(p.name), Lower(query))
  }

  /** `filteredAndSortedPDFs`. */
  function View(s: State): (v: seq<Pdf>)
    ensures Sorted(KeyOf(s.sortBy), v)
    ensures forall p :: p in v <==> p in s.pdfs && Contains(Lower(p.name), Lower(s.query))
    ensures multiset(v) == multiset(Keep(s.pdfs, Matches(s.query)))
  {
    var kept := Keep(s.pdfs, Matches(s.query));
    assert forall p :: p in kept <==> p in multiset(kept);
    Sort(KeyOf(s.sortBy), kept)
  }

  /** Records the chosen order cannot tell apart are shown in stored order. */
  lemma {:induction false} ViewStable(s: State, c: Pdf)
    ensures TiesOf(KeyOf(s.sortBy), c, View(s)) == TiesOf(KeyOf(s.sortBy), c, Keep(s.pdfs, Matches(s.query)))
  {
    SortStable(KeyOf(s.sortBy), Keep(s.pdfs, Matches(s.query)), c);
  }

  /** What each `sortBy` value means for any two shown records, the earlier
      first: names ascend under "name", chat counts descend under "chats", and
      upload times descend under "date" and every other value. */
  lemma ViewOrdered(s: State, i: nat, j: nat)
    requires i < j < |View(s)|
    ensures s.sortBy == "name" ==> LexLe(View(s)[i].name, View(s)[j].name)
    ensures s.sortBy == "chats" ==> View(s)[i].chatCount >= View(s)[j].chatCount
    ensures s.sortBy != "name" && s.sortBy != "chats" ==> View(s)[i].uploadedAt >= View(s)[j].uploadedAt
  {
    SortedPairs(KeyOf(s.sortBy), View(s), i, j);
  }

  /** An empty search shows every stored record. */
  lemma {:induction false} EmptyQueryShowsAll(s: State)
    requires s.query == ""
    ensures multiset(View(s)) == multiset(s.pdfs)
  {
    forall i | 0 <= i < |s.pdfs|
      ensures Matches(s.query)(s.pdfs[i])
    {
      ContainsEmpty(Lower(s.pdfs[i].name));
    }
    KeepAll(s.pdfs, Matches(s.query));
  }

  // ---------------------------------------------------------------------------
  // Totals.

  function ChatsOf(p: Pdf): int
  {
    p.chatCount
  }

  function BytesOf(p: Pdf): int
  {
    p.size
  }

  /** `pdfs.reduce((sum, pdf) => sum + pdf.chatCount, 0)`: never negative and at
      least any one PDF's count. */
  function TotalChats(pdfs: seq<Pdf>): (t: int)
    ensures t >= 0
    ensures forall i :: 0 <= i < |pdfs| ==> pdfs[i].chatCount <= t
  {
    SumBounds(pdfs, ChatsOf);
    Sum(pdfs, ChatsOf)
  }

  /** `pdfs.reduce((sum, pdf) => sum + pdf.size, 0)`, in bytes: never negative and
      at least any one PDF's size. */
  function TotalBytes(pdfs: seq<Pdf>): (t: int)
    ensures t >= 0
    ensures forall i :: 0 <= i < |pdfs| ==> pdfs[i].size <= t
  {
    SumBounds(pdfs, BytesOf);
    Sum(pdfs, BytesOf)
  }

  /** With an empty search the shown list has the same totals as the stored one,
      whatever the order. */
  lemma {:induction false} ViewTotals(s: State)
    requires s.query == ""
    ensures TotalChats(View(s)) == TotalChats(s.pdfs)
    ensures TotalBytes(View(s)) == TotalBytes(s.pdfs)
  {
    EmptyQueryShowsAll(s);
    SumPermutation(View(s), s.pdfs, ChatsOf);
    SumPermutation(View(s), s.pdfs, BytesOf);
  }

  /** Removing the records with one id splits any sum into what stays and what goes. */
  lemma {:induction false} DeleteSplitsSum(pdfs: seq<Pdf>, id: string, f: Pdf -> int)
    ensures Sum(pdfs, f) == Sum(Keep(pdfs, OtherThan(id)), f) + Sum(Keep(pdfs, WithId(id)), f)
  {
    SumKeepSplit(pdfs, OtherThan(id), WithId(id), f);
  }

  /** A delete lowers each total by exactly the removed records' share. */
  lemma DeleteTotals(s: State, id: string)
    ensures var after := Delete(s, id, true, Ok(())).pdfs;
            var gone := Keep(s.pdfs, WithId(id));
            && TotalChats(s.pdfs) == TotalChats(after) + TotalChats(gone)
            && TotalBytes(s.pdfs) == TotalBytes(after) + TotalBytes(gone)
  {
    DeleteSplitsSum(s.pdfs, id, ChatsOf);
    DeleteSplitsSum(s.pdfs, id, BytesOf);
  }

  /** Before the first fetch settles the page is loading, sorts by date and shows
      nothing. */
  lemma InitShowsNothing()
    ensures Init.isLoading && KeyOf(Init.sortBy) == ByDate
    ensures View(Init) == [] && TotalChats(Init.pdfs) == 0 && TotalBytes(Init.pdfs) == 0
  {
  }

  /** After an ok fetch with an empty search, the page shows every fetched PDF
      (in the chosen order) and the totals are those of the fetched list. */
  lemma {:induction false} FetchedShowsAll(s: State, pdfs: seq<Pdf>)
    requires s.query == ""
    ensures multiset(View(Fetched(s, Ok(pdfs)))) == multiset(pdfs)
    ensures TotalChats(View(Fetched(s, Ok(pdfs)))) == TotalChats(pdfs)
    ensures TotalBytes(View(Fetched(s, Ok(pdfs)))) == TotalBytes(pdfs)
  {
    ViewTotals(Fetched(s, Ok(pdfs)));
    EmptyQueryShowsAll(Fetched(s, Ok(pdfs)));
  }
}
