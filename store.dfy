/** The persisted collections of the application: books (each with its
    highlights) and mind maps. The store reads and rewrites two ordered
    collections; `Store` holds them as two sequence fields. Its lookups are
    find-first by id, its saves upsert by id, and its deletes keep a filtered
    copy, deleting a book also deleting the maps made from it. The sequence
    operations are generic over the record type, given the record's key. */
module Store {
  import opened Outline

  datatype Option<T> = None | Some(value: T)

  /** A highlight: its text and its chapter, the empty string standing for
      "no chapter". */
  datatype Highlight = Highlight(text: string, chapter: string)

  datatype Book = Book(id: string, title: string, highlights: seq<Highlight>)

  /** A saved mind map: `bookId` is absent for a map made without a book. */
  datatype MindMap = MindMap(id: string, bookId: Option<string>, title: string, createdAt: string,
                             outline: string, root: OutlineNode)

  function BookKey(b: Book): string { b.id }
  function MapKey(m: MindMap): string { m.id }

  /** `findIndex(x => key(x) === id)`: the first index whose key is `id`. */
  function FindIndex<T>(s: seq<T>, key: T -> string, id: string): (r: Option<nat>)
    ensures r.Some? ==> r.value < |s| && key(s[r.value]) == id
                        && forall j :: 0 <= j < r.value ==> key(s[j]) != id
    ensures r.None? ==> forall j :: 0 <= j < |s| ==> key(s[j]) != id
  {
    if s == [] then None
    else if key(s[0]) == id then Some(0)
    else match FindIndex(s[1..], key, id)
      case None => None
      case Some(i) => Some(i + 1)
  }

  /** `find(x => key(x) === id) || null`. */
  function Find<T>(s: seq<T>, key: T -> string, id: string): Option<T> {
    match FindIndex(s, key, id)
    case None => None
    case Some(i) => Some(s[i])
  }

  /** Replace the first entry with the same key as `x`, or append `x`. */
  function Upsert<T>(s: seq<T>, key: T -> string, x: T): seq<T> {
    match FindIndex(s, key, key(x))
    case Some(i) => s[i := x]
    case None => s + [x]
  }

  /** `filter(keep)`. */
  function Filter<T>(s: seq<T>, keep: T -> bool): (r: seq<T>)
    ensures |r| <= |s|
  {
    if s == [] then [] else (if keep(s[0]) then [s[0]] else []) + Filter(s[1..], keep)
  }

  /** The predicates the deletes filter with. */
  function OtherBook(id: string): Book -> bool { (b: Book) => b.id != id }
  function OtherMap(id: string): MindMap -> bool { (m: MindMap) => m.id != id }
  function NotFromBook(id: string): MindMap -> bool { (m: MindMap) => m.bookId != Some(id) }

  // ---------------------------------------------------------------------------
  // Lookup

  /** The lookup answers with an entry that has the key, the first one, and
      answers nothing exactly when no entry has it. */
  lemma FindSpec<T>(s: seq<T>, key: T -> string, id: string)
    ensures Find(s, key, id).None? <==> forall j :: 0 <= j < |s| ==> key(s[j]) != id
    ensures Find(s, key, id).Some? ==>
              exists i :: 0 <= i < |s| && Find(s, key, id).value == s[i] && key(s[i]) == id
                          && forall j :: 0 <= j < i ==> key(s[j]) != id
  {
    match FindIndex(s, key, id)
    case None =>
    case Some(i) =>
  }

  // ---------------------------------------------------------------------------
  // Upsert

  /** After saving `x`, looking up its key finds `x`. */
  lemma FindAfterUpsert<T>(s: seq<T>, key: T -> string, x: T)
    ensures Find(Upsert(s, key, x), key, key(x)) == Some(x)
  {
    var u := Upsert(s, key, x);
    match FindIndex(s, key, key(x))
    case Some(i) =>
      assert u[i] == x;
      var r := FindIndex(u, key, key(x));
      assert r.Some? && r.value <= i;
    case None =>
      assert u[|s|] == x;
      var r := FindIndex(u, key, key(x));
      assert r.Some? && r.value <= |s|;
  }

  /** Saving `x` does not change what any other key finds. */
  lemma FindOtherAfterUpsert<T>(s: seq<T>, key: T -> string, x: T, id: string)
    requires id != key(x)
    ensures Find(Upsert(s, key, x), key, id) == Find(s, key, id)
  {
    var u := Upsert(s, key, x);
    assert forall j :: 0 <= j < |s| && key(u[j]) == id ==> u[j] == s[j];
    var r := FindIndex(s, key, id);
    var q := FindIndex(u, key, id);
    match r
    case None =>
    case Some(i) =>
      assert u[i] == s[i];
      assert q.Some? && q.value <= i;
      assert u[q.value] == s[q.value];
  }

  /** A save replaces the first entry with the same key in place, keeping the
      length, or appends when there is none; entries with other keys stay where
      they were, and saving the same entry twice changes nothing more. */
  lemma UpsertShape<T>(s: seq<T>, key: T -> string, x: T)
    ensures var u := Upsert(s, key, x);
            && ((exists j :: 0 <= j < |s| && key(s[j]) == key(x)) ==> |u| == |s|)
            && ((forall j :: 0 <= j < |s| ==> key(s[j]) != key(x)) ==> u == s + [x])
            && (forall j :: 0 <= j < |s| && key(s[j]) != key(x) ==> u[j] == s[j])
            && x in u
            && Upsert(u, key, x) == u
  {
    var u := Upsert(s, key, x);
    FindAfterUpsert(s, key, x);
    var r := FindIndex(u, key, key(x));
    assert r.Some? && u[r.value] == x;
    assert u[r.value := x] == u;
  }

  // ---------------------------------------------------------------------------
  // Filter

  /** The filter keeps exactly the entries the predicate accepts... */
  lemma {:induction false} FilterMembers<T>(s: seq<T>, keep: T -> bool)
    ensures forall x :: x in Filter(s, keep) <==> x in s && keep(x)
  {
    if s != [] {
      FilterMembers(s[1..], keep);
      assert forall x :: x in s <==> x == s[0] || x in s[1..];
    }
  }

  /** ...in their original order: filtering a concatenation filters each part. */
  lemma {:induction false} FilterAppend<T>(a: seq<T>, b: seq<T>, keep: T -> bool)
    ensures Filter(a + b, keep) == Filter(a, keep) + Filter(b, keep)
  {
    if a == [] {
      assert a + b == b;
    } else {
      var head := if keep(a[0]) then [a[0]] else [];
      assert (a + b)[0] == a[0];
      assert (a + b)[1..] == a[1..] + b;
      FilterAppend(a[1..], b, keep);
      calc {
        Filter(a + b, keep);
        head + Filter(a[1..] + b, keep);
        head + (Filter(a[1..], keep) + Filter(b, keep));
        (head + Filter(a[1..], keep)) + Filter(b, keep);
      }
    }
  }

  /** Filtering what a filter kept changes nothing: deletes are idempotent. */
  lemma {:induction false} FilterIdempotent<T>(s: seq<T>, keep: T -> bool)
    ensures Filter(Filter(s, keep), keep) == Filter(s, keep)
  {
    if s != [] {
      FilterIdempotent(s[1..], keep);
      if keep(s[0]) {
        var f := Filter(s, keep);
        assert f == [s[0]] + Filter(s[1..], keep);
        assert f[0] == s[0] && f[1..] == Filter(s[1..], keep);
        assert Filter(f, keep) == [f[0]] + Filter(f[1..], keep);
      } else {
        assert Filter(s, keep) == Filter(s[1..], keep);
      }
    }
  }

  /** Nothing is left to find under a deleted key. */
  lemma FindAfterDelete<T>(s: seq<T>, key: T -> string, id: string, keep: T -> bool)
    requires forall x :: keep(x) <==> key(x) != id
    ensures Find(Filter(s, keep), key, id) == None
  {
    FilterMembers(s, keep);
    var f := Filter(s, keep);
    forall j | 0 <= j < |f| ensures key(f[j]) != id {
      assert f[j] in f;
    }
  }

  // ---------------------------------------------------------------------------
  // The store

  class Store {
    var books: seq<Book>
    var maps: seq<MindMap>

    /** A store over the collections found in storage. */
    constructor (books0: seq<Book>, maps0: seq<MindMap>)
      ensures books == books0 && maps == maps0
    {
      books, maps := books0, maps0;
    }

    /** `getBook`: the first book with the id, or nothing. */
    function GetBook(id: string): (r: Option<Book>)
      reads this
      ensures r.None? <==> forall j :: 0 <= j < |books| ==> books[j].id != id
      ensures r.Some? ==> r.value in books && r.value.id == id
    {
      FindSpec(books, BookKey, id);
      Find(books, BookKey, id)
    }

    /** `getMindMap`: the first map with the id, or nothing. */
    function GetMindMap(id: string): (r: Option<MindMap>)
      reads this
      ensures r.None? <==> forall j :: 0 <= j < |maps| ==> maps[j].id != id
      ensures r.Some? ==> r.value in maps && r.value.id == id
    {
      FindSpec(maps, MapKey, id);
      Find(maps, MapKey, id)
    }

    /** `saveBook`: replace the first book with the same id in place, or append. */
    method SaveBook(book: Book)
      modifies this
      ensures books == Upsert(old(books), BookKey, book)
      ensures maps == old(maps)
      ensures GetBook(book.id) == Some(book)
    {
      var idx := FindIndex(books, BookKey, book.id);
      if idx.Some? {
        books := books[idx.value := book];
      } else {
        books := books + [book];
      }
      FindAfterUpsert(old(books), BookKey, book);
    }

    /** `saveMindMap`: the same upsert on the maps; books are untouched. */
    method SaveMindMap(m: MindMap)
      modifies this
      ensures maps == Upsert(old(maps), MapKey, m)
      ensures books == old(books)
      ensures GetMindMap(m.id) == Some(m)
    {
      var idx := FindIndex(maps, MapKey, m.id);
      if idx.Some? {
        maps := maps[idx.value := m];
      } else {
        maps := maps + [m];
      }
      FindAfterUpsert(old(maps), MapKey, m);
    }

    /** `deleteBook`: drop every book with the id and every map made from it. */
    method DeleteBook(id: string)
      modifies this
      ensures books == Filter(old(books), OtherBook(id))
      ensures maps == Filter(old(maps), NotFromBook(id))
      ensures GetBook(id) == None
    {
      books := Filter(books, OtherBook(id));
      maps := Filter(maps, NotFromBook(id));
      FindAfterDelete(old(books), BookKey, id, OtherBook(id));
    }

    /** `deleteMindMap`: drop every map with the id; books are untouched. */
    method DeleteMindMap(id: string)
      modifies this
      ensures maps == Filter(old(maps), OtherMap(id))
      ensures books == old(books)
      ensures GetMindMap(id) == None
    {
      maps := Filter(maps, OtherMap(id));
      FindAfterDelete(old(maps), MapKey, id, OtherMap(id));
    }
  }

  /** After deleting a book, no book has its id and no map refers to it; every
      other book and map is still there, in the same order. */
  lemma DeleteBookSpec(books: seq<Book>, maps: seq<MindMap>, id: string)
    ensures forall b :: b in Filter(books, OtherBook(id)) <==> b in books && b.id != id
    ensures forall m :: m in Filter(maps, NotFromBook(id)) <==> m in maps && m.bookId != Some(id)
    ensures Filter(Filter(books, OtherBook(id)), OtherBook(id)) == Filter(books, OtherBook(id))
    ensures Filter(Filter(maps, NotFromBook(id)), NotFromBook(id)) == Filter(maps, NotFromBook(id))
  {
    FilterMembers(books, OtherBook(id));
    FilterMembers(maps, NotFromBook(id));
    FilterIdempotent(books, OtherBook(id));
    FilterIdempotent(maps, NotFromBook(id));
  }

  /** Deleting a map removes every map with its id and no other, idempotently. */
  lemma DeleteMindMapSpec(maps: seq<MindMap>, id: string)
    ensures forall m :: m in Filter(maps, OtherMap(id)) <==> m in maps && m.id != id
    ensures Filter(Filter(maps, OtherMap(id)), OtherMap(id)) == Filter(maps, OtherMap(id))
  {
    FilterMembers(maps, OtherMap(id));
    FilterIdempotent(maps, OtherMap(id));
  }
}
