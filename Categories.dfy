/**
 * The category catalogue of `CategoryService`: loosely typed catalogue
 * documents are checked field by field and turned into `CategoryPreview`s for
 * the listing and into a `Category` for the detail screen, and the service's
 * `isLoading`, `errorMessage` and `categories` follow each listing fetch.
 */
module Categories {
  import opened Wrappers

  /** A value stored in a catalogue document, as far as the casts can tell. */
  datatype FieldValue =
    | StringValue(s: string)
    | IntValue(i: int)
    | BoolValue(b: bool)
    | ArrayValue(elements: seq<FieldValue>)
    | OtherValue

  type DocumentData = map<string, FieldValue>

  /** A document of the `categories` collection. */
  datatype Document = Document(documentID: string, data: DocumentData)

  /** `Category`: one category with all its image addresses. */
  datatype Category = Category(id: string, name: string, order: int, isActive: bool, images: seq<string>)

  /** `CategoryPreview`: what the listing shows of a category. */
  datatype CategoryPreview = CategoryPreview(
    id: string, name: string, order: int, isActive: bool, imageCount: int, previewImage: string)

  /** `data[key] as? String` */
  function CastString(data: DocumentData, key: string): Option<string>
  {
    if key in data && data[key].StringValue? then Some(data[key].s) else None
  }

  /** `data[key] as? Int` */
  function CastInt(data: DocumentData, key: string): Option<int>
  {
    if key in data && data[key].IntValue? then Some(data[key].i) else None
  }

  /** `data[key] as? Bool` */
  function CastBool(data: DocumentData, key: string): Option<bool>
  {
    if key in data && data[key].BoolValue? then Some(data[key].b) else None
  }

  /** The strings of an array, when every element is a string. */
  function Strings(elements: seq<FieldValue>): (r: Option<seq<string>>)
    ensures r.Some? <==> forall k :: 0 <= k < |elements| ==> elements[k].StringValue?
    ensures r.Some? ==> |r.value| == |elements| && forall k :: 0 <= k < |elements| ==> elements[k] == StringValue(r.value[k])
  {
    if elements == [] then Some([])
    else if !elements[0].StringValue? then None
    else match Strings(elements[1..])
      case None => None
      case Some(rest) => Some([elements[0].s] + rest)
  }

  /** `data[key] as? [String]` */
  function CastStringArray(data: DocumentData, key: string): Option<seq<string>>
  {
    if key in data && data[key].ArrayValue? then Strings(data[key].elements) else None
  }

  /** The four category fields are present with the types the casts expect. */
  ghost predicate WellTyped(data: DocumentData)
  {
    && "name" in data && data["name"].StringValue?
    && "order" in data && data["order"].IntValue?
    && "isActive" in data && data["isActive"].BoolValue?
    && "images" in data && data["images"].ArrayValue?
    && forall k :: 0 <= k < |data["images"].elements| ==> data["images"].elements[k].StringValue?
  }

  /** A well-typed document whose `isActive` is true. */
  ghost predicate IsActiveCategory(data: DocumentData)
  {
    WellTyped(data) && data["isActive"].b
  }

  /**
   * The `compactMap` closure of `fetchCategories`: a preview for an active,
   * well-typed document with at least one image, and `nil` for any other.
   */
  function PreviewOf(doc: Document): (r: Option<CategoryPreview>)
    ensures r.Some? <==> IsActiveCategory(doc.data) && |doc.data["images"].elements| > 0
    ensures r.Some? ==>
      && r.value.id == doc.documentID
      && r.value.name == doc.data["name"].s
      && r.value.order == doc.data["order"].i
      && r.value.isActive
      && r.value.imageCount == |doc.data["images"].elements| > 0
      && doc.data["images"].elements[0] == StringValue(r.value.previewImage)
  {
    var data := doc.data;
    match (CastString(data, "name"), CastInt(data, "order"), CastBool(data, "isActive"), CastStringArray(data, "images"))
    case (Some(name), Some(order), Some(isActive), Some(images)) =>
      if images != [] && isActive then
        Some(CategoryPreview(doc.documentID, name, order, isActive, |images|,
                             if |images| > 0 then images[0] else ""))
      else None
    case _ => None
  }

  /** Swift's `compactMap`: the present results of `f`, in the order of `xs`. */
  function CompactMap<A, B>(f: A -> Option<B>, xs: seq<A>): seq<B>
  {
    if xs == [] then []
    else match f(xs[0])
      case Some(y) => [y] + CompactMap(f, xs[1..])
      case None => CompactMap(f, xs[1..])
  }

  function Shifted(ix: seq<nat>): seq<nat>
  {
    seq(|ix|, k requires 0 <= k < |ix| => ix[k] + 1)
  }

  /** Shifting moves a position `j` to `j + 1` and never produces position 0. */
  lemma ShiftedMembers(ix: seq<nat>, j: nat)
    ensures 0 !in Shifted(ix)
    ensures j + 1 in Shifted(ix) <==> j in ix
  {
    if j in ix {
      var k :| 0 <= k < |ix| && ix[k] == j;
      assert Shifted(ix)[k] == j + 1;
    }
  }

  /** The positions in `xs` where `f` gives a result, in increasing order. */
  function KeptIndices<A, B>(f: A -> Option<B>, xs: seq<A>): seq<nat>
  {
    if xs == [] then []
    else (if f(xs[0]).Some? then [0] else []) + Shifted(KeptIndices(f, xs[1..]))
  }

  lemma {:induction false} KeptLength<A, B>(f: A -> Option<B>, xs: seq<A>)
    ensures |CompactMap(f, xs)| == |KeptIndices(f, xs)| <= |xs|
    ensures forall k :: 0 <= k < |KeptIndices(f, xs)| ==> KeptIndices(f, xs)[k] < |xs|
  {
    if xs != [] {
      KeptLength(f, xs[1..]);
    }
  }

  lemma {:induction false} KeptContents<A, B>(f: A -> Option<B>, xs: seq<A>)
    ensures |CompactMap(f, xs)| == |KeptIndices(f, xs)|
    ensures forall k :: 0 <= k < |KeptIndices(f, xs)| ==>
      KeptIndices(f, xs)[k] < |xs| && f(xs[KeptIndices(f, xs)[k]]) == Some(CompactMap(f, xs)[k])
  {
    KeptLength(f, xs);
    if xs != [] {
      var tail := xs[1..];
      KeptContents(f, tail);
      var rest := KeptIndices(f, tail);
      var ix := KeptIndices(f, xs);
      var d := if f(xs[0]).Some? then 1 else 0;
      assert ix[d..] == Shifted(rest);
      assert CompactMap(f, xs)[d..] == CompactMap(f, tail);
      forall k | d <= k < |ix|
        ensures f(xs[ix[k]]) == Some(CompactMap(f, xs)[k])
      {
        assert ix[k] == ix[d..][k - d] == rest[k - d] + 1;
        assert CompactMap(f, xs)[k] == CompactMap(f, tail)[k - d];
        assert xs[ix[k]] == tail[rest[k - d]];
      }
    }
  }

  lemma {:induction false} KeptIncreasing<A, B>(f: A -> Option<B>, xs: seq<A>)
    ensures forall k, l :: 0 <= k < l < |KeptIndices(f, xs)| ==> KeptIndices(f, xs)[k] < KeptIndices(f, xs)[l]
  {
    if xs != [] {
      KeptIncreasing(f, xs[1..]);
    }
  }

  lemma {:induction false} KeptComplete<A, B>(f: A -> Option<B>, xs: seq<A>)
    ensures forall j :: 0 <= j < |xs| ==> (f(xs[j]).Some? <==> j in KeptIndices(f, xs))
  {
    if xs != [] {
      var tail := xs[1..];
      KeptComplete(f, tail);
      var head: seq<nat> := if f(xs[0]).Some? then [0] else [];
      var rest := Shifted(KeptIndices(f, tail));
      assert KeptIndices(f, xs) == head + rest;
      forall j | 0 <= j < |xs|
        ensures f(xs[j]).Some? <==> j in KeptIndices(f, xs)
      {
        ShiftedMembers(KeptIndices(f, tail), if j > 0 then j - 1 else 0);
        if j > 0 {
          assert xs[j] == tail[j - 1];
        }
      }
    }
  }

  /**
   * `compactMap` keeps an order-preserving subsequence: its k-th result comes
   * from the k-th element that has one, the positions increase, and an element
   * is used exactly when `f` gives it a result.
   */
  lemma CompactMapKeepsOrder<A, B>(f: A -> Option<B>, xs: seq<A>)
    ensures var ix := KeptIndices(f, xs);
      && |CompactMap(f, xs)| == |ix| <= |xs|
      && (forall k :: 0 <= k < |ix| ==> ix[k] < |xs| && f(xs[ix[k]]) == Some(CompactMap(f, xs)[k]))
      && (forall k, l :: 0 <= k < l < |ix| ==> ix[k] < ix[l])
      && (forall j :: 0 <= j < |xs| ==> (f(xs[j]).Some? <==> j in ix))
  {
    KeptLength(f, xs);
    KeptContents(f, xs);
    KeptIncreasing(f, xs);
    KeptComplete(f, xs);
  }

  /** `documents.compactMap { ... }`: the previews of the usable documents, in order. */
  function Previews(docs: seq<Document>): seq<CategoryPreview>
  {
    CompactMap(PreviewOf, docs)
  }

  /** The listing is empty exactly when no document yields a preview. */
  lemma PreviewsEmpty(docs: seq<Document>)
    ensures Previews(docs) == [] <==> forall j :: 0 <= j < |docs| ==> PreviewOf(docs[j]).None?
  {
    CompactMapKeepsOrder(PreviewOf, docs);
    var ix := KeptIndices(PreviewOf, docs);
    if Previews(docs) != [] {
      assert ix[0] in ix;
    }
    forall j | 0 <= j < |docs| && PreviewOf(docs[j]).Some?
      ensures Previews(docs) != []
    {
      assert j in ix;
    }
  }

  /** What the completion handler of the listing query receives. */
  datatype FetchResult =
    | Failed(localizedDescription: string)  // the query reported an error
    | NoSnapshot                            // neither an error nor a snapshot
    | Fetched(documents: seq<Document>)     // the documents, in the order the query returned them

  const NoCategoriesFound: string := "No active categories found"
  const NoActiveCategories: string := "No active categories available at the moment"

  /** The published state of a `CategoryService`. */
  datatype ServiceState = ServiceState(categories: seq<CategoryPreview>, isLoading: bool, errorMessage: Option<string>)

  /** The state when `fetchCategories` has issued the query. */
  function Started(s: ServiceState): (t: ServiceState)
    ensures t.isLoading && t.errorMessage.None? && t.categories == s.categories
  {
    s.(isLoading := true, errorMessage := None)
  }

  /**
   * The state after the query's completion handler: loading is over; an error
   * or a missing snapshot sets the message and keeps the old listing; a
   * snapshot replaces the listing and sets the message only when it is empty.
   */
  function Completed(s: ServiceState, result: FetchResult): (t: ServiceState)
    ensures !t.isLoading
    ensures !result.Fetched? ==> t.categories == s.categories
    ensures result.Failed? ==> t.errorMessage == Some(result.localizedDescription)
    ensures result.NoSnapshot? ==> t.errorMessage == Some(NoCategoriesFound)
    ensures result.Fetched? ==> t.categories == Previews(result.documents)
    ensures result.Fetched? ==> t.errorMessage == if t.categories == [] then Some(NoActiveCategories) else s.errorMessage
  {
    var s := s.(isLoading := false);
    match result
    case Failed(description) => s.(errorMessage := Some(description))
    case NoSnapshot => s.(errorMessage := Some(NoCategoriesFound))
    case Fetched(documents) =>
      var s := s.(categories := Previews(documents));
      if s.categories == [] then s.(errorMessage := Some(NoActiveCategories)) else s
  }

  /**
   * After a whole fetch no error is shown exactly when the query returned at
   * least one usable document, and then every listed category is active and
   * has images.
   */
  lemma FetchCycle(s: ServiceState, result: FetchResult)
    ensures var t := Completed(Started(s), result);
      && !t.isLoading
      && (t.errorMessage.None? <==> result.Fetched? && exists j :: 0 <= j < |result.documents| && PreviewOf(result.documents[j]).Some?)
      && (result.Fetched? ==> forall k :: 0 <= k < |t.categories| ==> t.categories[k].isActive && t.categories[k].imageCount > 0)
  {
    if result.Fetched? {
      var docs := result.documents;
      PreviewsEmpty(docs);
      CompactMapKeepsOrder(PreviewOf, docs);
    }
  }

  /** The service object the home screen observes. */
  class CategoryService {
    var categories: seq<CategoryPreview>
    var isLoading: bool
    var errorMessage: Option<string>

    function State(): ServiceState
      reads this
    {
      ServiceState(categories, isLoading, errorMessage)
    }

    constructor ()
      ensures State() == ServiceState([], false, None)
    {
      categories := [];
      isLoading := false;
      errorMessage := None;
    }

    /** `fetchCategories` up to issuing the query. */
    method FetchCategories()
      modifies this
      ensures State() == Started(old(State()))
    {
      isLoading := true;
      errorMessage := None;
    }

    /** The completion handler of the query on the main queue. */
    method CompleteFetch(result: FetchResult)
      modifies this
      ensures State() == Completed(old(State()), result)
    {
      isLoading := false;
      match result {
        case Failed(description) =>
          errorMessage := Some(description);
          return;
        case NoSnapshot =>
          errorMessage := Some(NoCategoriesFound);
          return;
        case Fetched(documents) =>
          categories := Previews(documents);
          if categories == [] {
            errorMessage := Some(NoActiveCategories);
          }
      }
    }
  }

  /** What the completion handler of the detail query receives. */
  datatype DetailResult =
    | DetailFailed(description: string)     // the query reported an error
    | DetailSnapshot(data: Option<DocumentData>)  // the document's data, `nil` if it does not exist

  /**
   * `fetchCategoryDetail`: the category for an active, well-typed document,
   * with the requested id and its image list exactly as stored (possibly
   * empty), and `nil` for an error, a missing document or any other document.
   */
  function CategoryDetail(categoryId: string, result: DetailResult): (r: Option<Category>)
    ensures r.Some? <==> result.DetailSnapshot? && result.data.Some? && IsActiveCategory(result.data.value)
    ensures r.Some? ==>
      var data := result.data.value;
      && r.value.id == categoryId
      && r.value.name == data["name"].s
      && r.value.order == data["order"].i
      && r.value.isActive
      && |r.value.images| == |data["images"].elements|
      && forall k :: 0 <= k < |r.value.images| ==> data["images"].elements[k] == StringValue(r.value.images[k])
  {
    match result
    case DetailFailed(_) => None
    case DetailSnapshot(None) => None
    case DetailSnapshot(Some(data)) =>
      match (CastString(data, "name"), CastInt(data, "order"), CastBool(data, "isActive"), CastStringArray(data, "images"))
      case (Some(name), Some(order), Some(isActive), Some(images)) =>
        if isActive then Some(Category(categoryId, name, order, isActive, images)) else None
      case _ => None
  }

  /**
   * The detail screen accepts every document the listing shows, with the same
   * image count and first image, and also the active ones without images,
   * which the listing drops.
   */
  lemma DetailAcceptsListed(doc: Document)
    ensures var detail := CategoryDetail(doc.documentID, DetailSnapshot(Some(doc.data)));
      && (PreviewOf(doc).Some? ==>
            && detail.Some?
            && detail.value.id == PreviewOf(doc).value.id
            && |detail.value.images| == PreviewOf(doc).value.imageCount
            && detail.value.images[0] == PreviewOf(doc).value.previewImage)
      && (detail.Some? && PreviewOf(doc).None? <==> IsActiveCategory(doc.data) && doc.data["images"].elements == [])
  {
  }
}
