/** convex/gallery.ts: gallery rows that point at stored files, single and batch
    imports that skip missing files and duplicates, and the reads that drop rows
    whose file is gone. The file store is `urlOf`: the URL `getUrl` returns for a
    storage id, or `None` for `null`. `now` is the mutation's `Date.now()`, which
    stays fixed for the duration of one mutation. */
module Gallery {
  import opened Wrappers
  import opened Store
  import Sorting

  /** `if (!url)` is false: a URL was returned and it is not empty. */
  predicate UrlOk(url: Option<string>) {
    url.Some? && url.value != ""
  }

  /** Some gallery row refers to `storageId`. */
  predicate HasStorageId(rows: seq<Row<GalleryImage>>, storageId: StorageId) {
    exists k | 0 <= k < |rows| :: rows[k].doc.storageId == storageId
  }

  /** No two gallery rows refer to the same file. */
  predicate UniqueStorageIds(rows: seq<Row<GalleryImage>>) {
    forall i, j | 0 <= i < j < |rows| :: rows[i].doc.storageId != rows[j].doc.storageId
  }

  /** `checkStorageIdExists`: the first row found by the full-table filter. */
  function CheckStorageIdExists(rows: seq<Row<GalleryImage>>, storageId: StorageId): (r: bool)
    ensures r <==> HasStorageId(rows, storageId)
  {
    FindFirst(rows, (g: Row<GalleryImage>) => g.doc.storageId == storageId).Some?
  }

  /** `addGalleryImage`. */
  method AddGalleryImage(
    db: Database, storageId: StorageId, title: Option<string>, description: Option<string>,
    order: Option<int>, urlOf: StorageId -> Option<string>, now: int)
    returns (r: Result<Id>)
    requires db.Valid()
    modifies db
    ensures db.Valid()
    ensures r.Err? <==> !UrlOk(urlOf(storageId))
    ensures r.Err? ==> r.message == "File not found in storage" && db.State() == old(db.State())
    ensures r.Ok? ==> r.value == old(db.nextId) && db.State() == old(db.State()).(
      galleryImages := old(db.galleryImages) + [Row(r.value, GalleryImage(storageId, title, description, now, order))],
      nextId := old(db.nextId) + 1)
  {
    var url := urlOf(storageId);
    if !UrlOk(url) {
      return Err("File not found in storage");
    }
    var imageId := db.nextId;
    db.galleryImages := db.galleryImages + [Row(imageId, GalleryImage(storageId, title, description, now, order))];
    db.nextId := db.nextId + 1;
    r := Ok(imageId);
  }

  // ---------------------------------------------------------------- batch imports

  datatype Added = Added(storageId: StorageId, imageId: Id)
  datatype ImportError = ImportError(storageId: StorageId, error: string)

  /** The gallery table, the id counter and the two result lists of a batch import
      part way through. */
  datatype ImportState = ImportState(
    rows: seq<Row<GalleryImage>>, nextId: nat, added: seq<Added>, errors: seq<ImportError>)

  /** One turn of an import loop for the document `doc`: a missing file and a file
      already in the table are reported with the given messages; any other file
      is inserted and listed as added. */
  function ImportItem(
    s: ImportState, doc: GalleryImage, urlOf: StorageId -> Option<string>,
    notFound: string, duplicate: string): ImportState
  {
    if !UrlOk(urlOf(doc.storageId)) then
      s.(errors := s.errors + [ImportError(doc.storageId, notFound)])
    else if HasStorageId(s.rows, doc.storageId) then
      s.(errors := s.errors + [ImportError(doc.storageId, duplicate)])
    else
      s.(rows := s.rows + [Row(s.nextId, doc)], nextId := s.nextId + 1,
         added := s.added + [Added(doc.storageId, s.nextId)])
  }

  /** An import loop over all of `docs`, in order. */
  function ImportAll(
    s: ImportState, docs: seq<GalleryImage>, urlOf: StorageId -> Option<string>,
    notFound: string, duplicate: string): ImportState
  {
    if docs == [] then s
    else ImportItem(ImportAll(s, docs[..|docs| - 1], urlOf, notFound, duplicate), docs[|docs| - 1], urlOf, notFound, duplicate)
  }

  /** Every item lands in exactly one of the two lists. */
  lemma {:induction false} ImportCounts(
    s: ImportState, docs: seq<GalleryImage>, urlOf: StorageId -> Option<string>, notFound: string, duplicate: string)
    ensures var r := ImportAll(s, docs, urlOf, notFound, duplicate);
      |r.added| + |r.errors| == |s.added| + |s.errors| + |docs|
  {
    if docs != [] {
      ImportCounts(s, docs[..|docs| - 1], urlOf, notFound, duplicate);
    }
  }

  /** The rows of `rows` after position `from` are, one for one, the items of
      `added`. */
  predicate ListsNewRows(rows: seq<Row<GalleryImage>>, from: nat, added: seq<Added>) {
    && |rows| == from + |added|
    && forall k | 0 <= k < |added| :: rows[from + k].id == added[k].imageId && rows[from + k].doc.storageId == added[k].storageId
  }

  /** The table only grows at its end, the new rows are exactly the added items,
      and the counter moves by their number. */
  lemma {:induction false} ImportAppends(
    s: ImportState, docs: seq<GalleryImage>, urlOf: StorageId -> Option<string>, notFound: string, duplicate: string)
    requires s.added == []
    ensures var r := ImportAll(s, docs, urlOf, notFound, duplicate);
      && ListsNewRows(r.rows, |s.rows|, r.added)
      && r.rows[..|s.rows|] == s.rows
      && r.nextId == s.nextId + |r.added|
  {
    if docs != [] {
      var p := ImportAll(s, docs[..|docs| - 1], urlOf, notFound, duplicate);
      ImportAppends(s, docs[..|docs| - 1], urlOf, notFound, duplicate);
      var d := docs[|docs| - 1];
      var r := ImportItem(p, d, urlOf, notFound, duplicate);
      assert ImportAll(s, docs, urlOf, notFound, duplicate) == r;
      if UrlOk(urlOf(d.storageId)) && !HasStorageId(p.rows, d.storageId) {
        assert r.rows == p.rows + [Row(p.nextId, d)];
        assert r.added == p.added + [Added(d.storageId, p.nextId)];
        assert r.rows[..|s.rows|] == p.rows[..|s.rows|];
        forall k | 0 <= k < |r.added| ensures r.rows[|s.rows| + k].id == r.added[k].imageId && r.rows[|s.rows| + k].doc.storageId == r.added[k].storageId {
          if k < |p.added| {
            assert r.rows[|s.rows| + k] == p.rows[|s.rows| + k];
            assert r.added[k] == p.added[k];
          }
        }
      }
    }
  }

  /** An import never lets a file get a second row, within the batch or against
      the rows already there. */
  lemma {:induction false} ImportKeepsUnique(
    s: ImportState, docs: seq<GalleryImage>, urlOf: StorageId -> Option<string>, notFound: string, duplicate: string)
    requires UniqueStorageIds(s.rows)
    ensures UniqueStorageIds(ImportAll(s, docs, urlOf, notFound, duplicate).rows)
  {
    if docs != [] {
      var p := ImportAll(s, docs[..|docs| - 1], urlOf, notFound, duplicate);
      ImportKeepsUnique(s, docs[..|docs| - 1], urlOf, notFound, duplicate);
      var r := ImportItem(p, docs[|docs| - 1], urlOf, notFound, duplicate);
      if r.rows != p.rows {
        forall i, j | 0 <= i < j < |r.rows| ensures r.rows[i].doc.storageId != r.rows[j].doc.storageId {
          assert r.rows[i] == p.rows[i];
          if j < |p.rows| { assert r.rows[j] == p.rows[j]; }
        }
      }
    }
  }

  /** Imported rows get fresh ids. */
  lemma {:induction false} ImportKeepsIdsBelow(
    s: ImportState, docs: seq<GalleryImage>, urlOf: StorageId -> Option<string>, notFound: string, duplicate: string)
    requires IdsBelow(s.rows, s.nextId)
    ensures var r := ImportAll(s, docs, urlOf, notFound, duplicate);
      IdsBelow(r.rows, r.nextId) && r.nextId >= s.nextId
  {
    if docs != [] {
      ImportKeepsIdsBelow(s, docs[..|docs| - 1], urlOf, notFound, duplicate);
    }
  }

  predicate AllFound(added: seq<Added>, urlOf: StorageId -> Option<string>) {
    forall k | 0 <= k < |added| :: UrlOk(urlOf(added[k].storageId))
  }

  /** A file that is missing gets no row and nothing in `added`. */
  lemma {:induction false} MissingFilesNotAdded(
    s: ImportState, docs: seq<GalleryImage>, urlOf: StorageId -> Option<string>, notFound: string, duplicate: string)
    requires AllFound(s.added, urlOf)
    ensures AllFound(ImportAll(s, docs, urlOf, notFound, duplicate).added, urlOf)
  {
    if docs != [] {
      var p := ImportAll(s, docs[..|docs| - 1], urlOf, notFound, duplicate);
      MissingFilesNotAdded(s, docs[..|docs| - 1], urlOf, notFound, duplicate);
      var r := ImportItem(p, docs[|docs| - 1], urlOf, notFound, duplicate);
      var d := docs[|docs| - 1];
      assert ImportAll(s, docs, urlOf, notFound, duplicate) == r;
      if !UrlOk(urlOf(d.storageId)) || HasStorageId(p.rows, d.storageId) {
        assert r.added == p.added;
      } else {
        assert r.added == p.added + [Added(d.storageId, p.nextId)];
        forall k | 0 <= k < |r.added| ensures UrlOk(urlOf(r.added[k].storageId)) {
          if k < |p.added| {
            assert r.added[k] == p.added[k];
          }
        }
      }
    }
  }

  /** An item of `bulkAddGalleryImages`. */
  datatype ImageArgs = ImageArgs(storageId: StorageId, title: Option<string>, description: Option<string>, order: Option<int>)

  function BulkDoc(image: ImageArgs, now: int): GalleryImage {
    GalleryImage(image.storageId, image.title, image.description, now, image.order)
  }

  function BulkDocs(images: seq<ImageArgs>, now: int): (r: seq<GalleryImage>)
    ensures |r| == |images| && forall k | 0 <= k < |r| :: r[k] == BulkDoc(images[k], now)
  {
    seq(|images|, k requires 0 <= k < |images| => BulkDoc(images[k], now))
  }

  /** `bulkAddGalleryImages`. */
  method BulkAddGalleryImages(db: Database, images: seq<ImageArgs>, urlOf: StorageId -> Option<string>, now: int)
    returns (added: seq<Added>, errors: seq<ImportError>)
    requires db.Valid()
    modifies db
    ensures db.Valid()
    ensures var r := ImportAll(ImportState(old(db.galleryImages), old(db.nextId), [], []), BulkDocs(images, now), urlOf,
                               "File not found", "Already exists");
      && added == r.added && errors == r.errors
      && db.State() == old(db.State()).(galleryImages := r.rows, nextId := r.nextId)
    ensures |added| + |errors| == |images|
    ensures old(UniqueStorageIds(db.galleryImages)) ==> UniqueStorageIds(db.galleryImages)
  {
    ghost var s0 := ImportState(db.galleryImages, db.nextId, [], []);
    ghost var docs := BulkDocs(images, now);
    added, errors := [], [];
    for i := 0 to |images|
      invariant ImportState(db.galleryImages, db.nextId, added, errors) == ImportAll(s0, docs[..i], urlOf, "File not found", "Already exists")
      invariant db.State() == old(db.State()).(galleryImages := db.galleryImages, nextId := db.nextId)
    {
      assert docs[..i + 1][..i] == docs[..i];
      var image := images[i];
      var url := urlOf(image.storageId);
      if !UrlOk(url) {
        errors := errors + [ImportError(image.storageId, "File not found")];
        continue;
      }
      var existing := CheckStorageIdExists(db.galleryImages, image.storageId);
      if existing {
        errors := errors + [ImportError(image.storageId, "Already exists")];
        continue;
      }
      var imageId := db.nextId;
      db.galleryImages := db.galleryImages + [Row(imageId, GalleryImage(image.storageId, image.title, image.description, now, image.order))];
      db.nextId := db.nextId + 1;
      added := added + [Added(image.storageId, imageId)];
    }
    assert docs[..|images|] == docs;
    ImportCounts(s0, docs, urlOf, "File not found", "Already exists");
    ImportKeepsIdsBelow(s0, docs, urlOf, "File not found", "Already exists");
    if UniqueStorageIds(s0.rows) {
      ImportKeepsUnique(s0, docs, urlOf, "File not found", "Already exists");
    }
  }

  /** An item of `discoverAndAddFiles`' `added` list. */
  datatype Discovered = Discovered(storageId: StorageId, imageId: Id, url: string)

  datatype Summary = Summary(total: int, added: int, errors: int)

  /** The added items with the URL the lookup returned for them. */
  function WithFoundUrls(added: seq<Added>, urlOf: StorageId -> Option<string>): (r: seq<Discovered>)
    ensures |r| == |added|
    ensures forall k | 0 <= k < |r| ::
      r[k].storageId == added[k].storageId && r[k].imageId == added[k].imageId && Some(r[k].url) == urlOf(added[k].storageId)
    requires forall k | 0 <= k < |added| :: urlOf(added[k].storageId).Some?
  {
    seq(|added|, k requires 0 <= k < |added| => Discovered(added[k].storageId, added[k].imageId, urlOf(added[k].storageId).value))
  }

  /** A document `discoverAndAddFiles` inserts: only the file and the time. */
  function DiscoverDocs(storageIds: seq<StorageId>, now: int): (r: seq<GalleryImage>)
    ensures |r| == |storageIds| && forall k | 0 <= k < |r| :: r[k] == GalleryImage(storageIds[k], None, None, now, None)
  {
    seq(|storageIds|, k requires 0 <= k < |storageIds| => GalleryImage(storageIds[k], None, None, now, None))
  }

  /** `discoverAndAddFiles`. */
  method DiscoverAndAddFiles(db: Database, storageIds: seq<StorageId>, urlOf: StorageId -> Option<string>, now: int)
    returns (added: seq<Discovered>, errors: seq<ImportError>, summary: Summary)
    requires db.Valid()
    modifies db
    ensures db.Valid()
    ensures var r := ImportAll(ImportState(old(db.galleryImages), old(db.nextId), [], []), DiscoverDocs(storageIds, now), urlOf,
                               "File not found in storage", "Already in gallery");
      && (forall k | 0 <= k < |r.added| :: urlOf(r.added[k].storageId).Some?)
      && added == WithFoundUrls(r.added, urlOf) && errors == r.errors
      && db.State() == old(db.State()).(galleryImages := r.rows, nextId := r.nextId)
    ensures summary == Summary(|storageIds|, |added|, |errors|)
    ensures summary.added + summary.errors == summary.total
    ensures old(UniqueStorageIds(db.galleryImages)) ==> UniqueStorageIds(db.galleryImages)
  {
    ghost var s0 := ImportState(db.galleryImages, db.nextId, [], []);
    ghost var docs := DiscoverDocs(storageIds, now);
    ghost var addedIds;
    added, errors, addedIds := DiscoverLoop(db, storageIds, urlOf, now);
    ImportCounts(s0, docs, urlOf, "File not found in storage", "Already in gallery");
    ImportKeepsIdsBelow(s0, docs, urlOf, "File not found in storage", "Already in gallery");
    if UniqueStorageIds(s0.rows) {
      ImportKeepsUnique(s0, docs, urlOf, "File not found in storage", "Already in gallery");
    }
    summary := Summary(|storageIds|, |added|, |errors|);
  }

  /** The loop of `discoverAndAddFiles`; `addedIds` is its `added` list without
      the URLs. */
  method DiscoverLoop(db: Database, storageIds: seq<StorageId>, urlOf: StorageId -> Option<string>, now: int)
    returns (added: seq<Discovered>, errors: seq<ImportError>, ghost addedIds: seq<Added>)
    modifies db
    ensures var r := ImportAll(ImportState(old(db.galleryImages), old(db.nextId), [], []), DiscoverDocs(storageIds, now), urlOf,
                               "File not found in storage", "Already in gallery");
      && addedIds == r.added && errors == r.errors
      && (forall k | 0 <= k < |addedIds| :: urlOf(addedIds[k].storageId).Some?)
      && added == WithFoundUrls(addedIds, urlOf)
      && db.State() == old(db.State()).(galleryImages := r.rows, nextId := r.nextId)
  {
    ghost var s0 := ImportState(db.galleryImages, db.nextId, [], []);
    ghost var docs := DiscoverDocs(storageIds, now);
    addedIds := [];
    added, errors := [], [];
    for i := 0 to |storageIds|
      invariant ImportState(db.galleryImages, db.nextId, addedIds, errors) == ImportAll(s0, docs[..i], urlOf, "File not found in storage", "Already in gallery")
      invariant forall k | 0 <= k < |addedIds| :: urlOf(addedIds[k].storageId).Some?
      invariant added == WithFoundUrls(addedIds, urlOf)
      invariant db.State() == old(db.State()).(galleryImages := db.galleryImages, nextId := db.nextId)
    {
      assert docs[..i + 1][..i] == docs[..i];
      ghost var before := ImportState(db.galleryImages, db.nextId, addedIds, errors);
      assert ImportAll(s0, docs[..i + 1], urlOf, "File not found in storage", "Already in gallery")
        == ImportItem(before, docs[i], urlOf, "File not found in storage", "Already in gallery");
      var storageId := storageIds[i];
      assert docs[i] == GalleryImage(storageId, None, None, now, None);
      var url := urlOf(storageId);
      if !UrlOk(url) {
        errors := errors + [ImportError(storageId, "File not found in storage")];
        continue;
      }
      var existing := CheckStorageIdExists(db.galleryImages, storageId);
      if existing {
        errors := errors + [ImportError(storageId, "Already in gallery")];
        continue;
      }
      var imageId := db.nextId;
      db.galleryImages := db.galleryImages + [Row(imageId, GalleryImage(storageId, None, None, now, None))];
      db.nextId := db.nextId + 1;
      addedIds := addedIds + [Added(storageId, imageId)];
      added := added + [Discovered(storageId, imageId, url.value)];
    }
    assert docs[..|storageIds|] == docs;
  }

  // ---------------------------------------------------------------- reads

  /** A gallery row with the URL of its file. */
  datatype ImageWithUrl = ImageWithUrl(image: Row<GalleryImage>, url: string)

  function ImagesOf(r: seq<ImageWithUrl>): (images: seq<Row<GalleryImage>>)
    ensures |images| == |r| && forall k | 0 <= k < |r| :: images[k] == r[k].image
  {
    seq(|r|, k requires 0 <= k < |r| => r[k].image)
  }

  /** Attach each row's URL and drop the rows whose URL is `null`, keeping order. */
  function WithUrls(images: seq<Row<GalleryImage>>, urlOf: StorageId -> Option<string>): (r: seq<ImageWithUrl>)
    ensures |r| <= |images|
    ensures forall k | 0 <= k < |r| :: urlOf(r[k].image.doc.storageId) == Some(r[k].url)
    ensures forall g :: g in ImagesOf(r) <==> g in images && urlOf(g.doc.storageId).Some?
  {
    if images == [] then []
    else
      var init, last := images[..|images| - 1], images[|images| - 1];
      assert images == init + [last];
      var r' := WithUrls(init, urlOf);
      assert forall g :: g in images <==> g in init || g == last;
      match urlOf(last.doc.storageId)
      case None => r'
      case Some(u) =>
        assert ImagesOf(r' + [ImageWithUrl(last, u)]) == ImagesOf(r') + [last];
        r' + [ImageWithUrl(last, u)]
  }

  /** `getGalleryImages`, over the rows in the order the index scan returns them. */
  function GetGalleryImages(images: seq<Row<GalleryImage>>, urlOf: StorageId -> Option<string>): (r: seq<ImageWithUrl>)
    ensures forall k | 0 <= k < |r| :: urlOf(r[k].image.doc.storageId) == Some(r[k].url)
    ensures forall g :: g in ImagesOf(r) <==> g in images && urlOf(g.doc.storageId).Some?
  {
    WithUrls(images, urlOf)
  }

  /** The `by_uploadedAt` index scanned in descending order: latest upload first,
      and among equal times the later insert first. */
  function ByUploadedAtDesc(rows: seq<Row<GalleryImage>>): (r: seq<Row<GalleryImage>>)
    ensures multiset(r) == multiset(rows)
    ensures NewestFirst(r)
  {
    var reversed := seq(|rows|, k requires 0 <= k < |rows| => rows[|rows| - 1 - k]);
    assert multiset(reversed) == multiset(rows) by { ReverseSameMultiset(rows, reversed); }
    Sorting.SortByKey(reversed, (g: Row<GalleryImage>) => -g.doc.uploadedAt)
  }

  lemma {:induction false} ReverseSameMultiset<T>(s: seq<T>, r: seq<T>)
    requires |r| == |s| && forall k | 0 <= k < |s| :: r[k] == s[|s| - 1 - k]
    ensures multiset(r) == multiset(s)
  {
    if s != [] {
      var n := |s|;
      ReverseSameMultiset(s[1..], r[..n - 1]);
      assert r == r[..n - 1] + [s[0]];
      assert s == [s[0]] + s[1..];
    }
  }

  /** `getGalleryImagesByDate`: the rows whose file still exists, latest first. */
  function GetGalleryImagesByDate(rows: seq<Row<GalleryImage>>, urlOf: StorageId -> Option<string>): (r: seq<ImageWithUrl>)
    ensures forall k | 0 <= k < |r| :: urlOf(r[k].image.doc.storageId) == Some(r[k].url)
    ensures forall g :: g in ImagesOf(r) <==> g in rows && urlOf(g.doc.storageId).Some?
    ensures NewestFirst(ImagesOf(r))
  {
    var sorted := ByUploadedAtDesc(rows);
    assert forall g :: g in sorted <==> g in rows by {
      forall g ensures g in sorted <==> g in rows {
        Sorting.SameElements(sorted, rows, g);
      }
    }
    WithUrlsKeepsOrder(sorted, urlOf);
    WithUrls(sorted, urlOf)
  }

  /** Dropping rows keeps a descending order descending. */
  lemma {:induction false} WithUrlsKeepsOrder(images: seq<Row<GalleryImage>>, urlOf: StorageId -> Option<string>)
    requires NewestFirst(images)
    ensures NewestFirst(ImagesOf(WithUrls(images, urlOf)))
  {
    if images != [] {
      var init, last := images[..|images| - 1], images[|images| - 1];
      assert NewestFirst(init);
      WithUrlsKeepsOrder(init, urlOf);
      var r' := WithUrls(init, urlOf);
      match urlOf(last.doc.storageId)
      case None =>
        assert WithUrls(images, urlOf) == r';
      case Some(u) =>
        var r := r' + [ImageWithUrl(last, u)];
        assert WithUrls(images, urlOf) == r;
        var rs, rs' := ImagesOf(r), ImagesOf(r');
        forall k | 0 <= k < |rs'| ensures rs'[k].doc.uploadedAt >= last.doc.uploadedAt {
          assert rs'[k] in init;
          var a :| 0 <= a < |init| && init[a] == rs'[k];
          assert images[a] == init[a];
        }
        assert rs == rs' + [last];
    }
  }

  /** Ordered by `uploadedAt`, latest first. */
  predicate NewestFirst(images: seq<Row<GalleryImage>>) {
    forall i, j | 0 <= i < j < |images| :: images[i].doc.uploadedAt >= images[j].doc.uploadedAt
  }

  datatype StoredUrl = StoredUrl(storageId: StorageId, url: string)

  function StorageIdsOf(r: seq<StoredUrl>): (ids: seq<StorageId>)
    ensures |ids| == |r| && forall k | 0 <= k < |r| :: ids[k] == r[k].storageId
  {
    seq(|r|, k requires 0 <= k < |r| => r[k].storageId)
  }

  /** `getImagesFromStorageIds`: the given ids whose file exists, with its URL, in
      the order given. */
  function GetImagesFromStorageIds(storageIds: seq<StorageId>, urlOf: StorageId -> Option<string>): (r: seq<StoredUrl>)
    ensures |r| <= |storageIds|
    ensures forall k | 0 <= k < |r| :: urlOf(r[k].storageId) == Some(r[k].url)
    ensures forall id :: id in StorageIdsOf(r) <==> id in storageIds && urlOf(id).Some?
    ensures forall id :: multiset(StorageIdsOf(r))[id] == if urlOf(id).Some? then multiset(storageIds)[id] else 0
  {
    if storageIds == [] then []
    else
      var init, last := storageIds[..|storageIds| - 1], storageIds[|storageIds| - 1];
      assert storageIds == init + [last];
      var r' := GetImagesFromStorageIds(init, urlOf);
      assert forall id :: id in storageIds <==> id in init || id == last;
      match urlOf(last)
      case None => r'
      case Some(u) =>
        assert StorageIdsOf(r' + [StoredUrl(last, u)]) == StorageIdsOf(r') + [last];
        r' + [StoredUrl(last, u)]
  }

  lemma StoredUrlsSnoc(init: seq<StorageId>, last: StorageId, urlOf: StorageId -> Option<string>)
    ensures GetImagesFromStorageIds(init + [last], urlOf)
      == GetImagesFromStorageIds(init, urlOf) + match urlOf(last) case None => [] case Some(u) => [StoredUrl(last, u)]
  {
    var ids := init + [last];
    assert ids[..|ids| - 1] == init;
  }

  /** The filter keeps the order of the ids given: earlier ids come first. */
  lemma {:induction false} StoredUrlsInOrder(a: seq<StorageId>, b: seq<StorageId>, urlOf: StorageId -> Option<string>)
    ensures GetImagesFromStorageIds(a + b, urlOf) == GetImagesFromStorageIds(a, urlOf) + GetImagesFromStorageIds(b, urlOf)
  {
    if b == [] {
      assert a + b == a;
      assert GetImagesFromStorageIds(a, urlOf) + GetImagesFromStorageIds(b, urlOf) == GetImagesFromStorageIds(a, urlOf) + [];
    } else {
      var init, last := b[..|b| - 1], b[|b| - 1];
      assert b == init + [last];
      assert a + b == (a + init) + [last];
      var x, y := GetImagesFromStorageIds(a, urlOf), GetImagesFromStorageIds(init, urlOf);
      var t := match urlOf(last) case None => [] case Some(u) => [StoredUrl(last, u)];
      StoredUrlsSnoc(a + init, last, urlOf);
      StoredUrlsSnoc(init, last, urlOf);
      StoredUrlsInOrder(a, init, urlOf);
      assert GetImagesFromStorageIds(a + b, urlOf) == (x + y) + t;
      Sorting.ConcatAssoc(x, y, t);
    }
  }
}
