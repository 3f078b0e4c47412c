/** The image-listing endpoint (pages/api/images.ts): the media host's
    search results, each annotated with its paywall record, then merged by
    position with the blur placeholders. The search, the per-image lookups
    and the placeholder computation are inputs: `resources` is the search
    result, `records` the `gallery` collection, `blur` the placeholder
    computation. */
module ImagesApi {
  import opened Wrappers
  import opened GalleryStore

  /** One search result of the media host. */
  datatype Resource = Resource(public_id: string, height: nat, width: nat, format: string, display_name: string)

  /** `paywall: paywall ? paywall.paywall : false`. */
  datatype PaywallField = NoPaywall | PaywallLink(url: string)

  /** `ImageProps` as the listing returns it. */
  datatype ImageProps = ImageProps(
    id: nat,
    height: nat,
    width: nat,
    public_id: string,
    format: string,
    paywall: PaywallField,
    display_name: string,
    blurDataUrl: Option<string>)

  /** A value thrown inside the `try` block: an `Error` with its message,
      or anything else. */
  datatype Thrown = ErrorObject(message: string) | OtherValue

  datatype ImagesResponse =
    | MethodNotAllowed
    | Listing(images: seq<ImageProps>, count: nat)
    | Failed(error: string, message: string)
  {
    function Status(): nat {
      match this
      case MethodNotAllowed => 405
      case Listing(_, _) => 200
      case Failed(_, _) => 500
    }

    /** The `success` field (the 405 body has none). */
    predicate Success() {
      Listing?
    }
  }

  /** The paywall field of an image: the URL stored in the first record for
      its `public_id`, or false when there is none. */
  function PaywallOf(records: seq<PaywallRecord>, publicId: string): (p: PaywallField)
    ensures p.NoPaywall? <==> forall i :: 0 <= i < |records| ==> records[i].public_id != Some(publicId)
    ensures p.PaywallLink? ==> exists i :: FirstMatchAt(records, publicId, i) && records[i].paywall == p.url
  {
    match FindPaywall(records, publicId)
    case None => NoPaywall
    case Some(rec) => PaywallLink(rec.paywall)
  }

  /** The element the first loop pushes for resource `r` at position `i`. */
  function Annotated(i: nat, r: Resource, records: seq<PaywallRecord>): ImageProps {
    ImageProps(i, r.height, r.width, r.public_id, r.format, PaywallOf(records, r.public_id), r.display_name, None)
  }

  /** The handler. */
  method ListImages(httpMethod: string, resources: seq<Resource>, records: seq<PaywallRecord>,
                    blur: Resource -> string, thrown: Option<Thrown>)
    returns (res: ImagesResponse)
    ensures res.Status() == 405 <==> httpMethod != "GET"
    ensures res.Status() == 500 <==> httpMethod == "GET" && thrown.Some?
    ensures res.Success() <==> res.Status() == 200
    ensures httpMethod != "GET" ==> res == MethodNotAllowed
    ensures httpMethod == "GET" && thrown.Some? ==>
      res == Failed("Failed to fetch images",
                    if thrown.value.ErrorObject? then thrown.value.message else "Unknown error")
    ensures httpMethod == "GET" && thrown.None? ==>
      && res.Listing? && |res.images| == |resources| && res.count == |resources|
      && forall k :: 0 <= k < |resources| ==>
        && res.images[k].id == k
        && res.images[k].height == resources[k].height
        && res.images[k].width == resources[k].width
        && res.images[k].public_id == resources[k].public_id
        && res.images[k].format == resources[k].format
        && res.images[k].display_name == resources[k].display_name
        && res.images[k].paywall == PaywallOf(records, resources[k].public_id)
        && res.images[k].blurDataUrl == Some(blur(resources[k]))
  {
    if httpMethod != "GET" {
      return MethodNotAllowed;
    }
    if thrown.Some? {
      var message := if thrown.value.ErrorObject? then thrown.value.message else "Unknown error";
      return Failed("Failed to fetch images", message);
    }
    // the annotation loop: one paywall lookup per resource, ids 0, 1, ...
    var reducedResults: seq<ImageProps> := [];
    var i := 0;
    while i < |resources|
      invariant 0 <= i <= |resources| && |reducedResults| == i
      invariant forall k :: 0 <= k < i ==> reducedResults[k] == Annotated(k, resources[k], records)
    {
      var result := resources[i];
      var paywall := FindPaywall(records, result.public_id);
      reducedResults := reducedResults + [ImageProps(
        i, result.height, result.width, result.public_id, result.format,
        if paywall.Some? then PaywallLink(paywall.value.paywall) else NoPaywall,
        result.display_name, None)];
      i := i + 1;
    }
    // Promise.all over the placeholders keeps the order of `resources`
    var imagesWithBlurDataUrls := seq(|resources|, k requires 0 <= k < |resources| => blur(resources[k]));
    var j := 0;
    while j < |reducedResults|
      invariant 0 <= j <= |reducedResults| == |resources|
      invariant forall k :: 0 <= k < j ==>
        reducedResults[k] == Annotated(k, resources[k], records).(blurDataUrl := Some(blur(resources[k])))
      invariant forall k :: j <= k < |resources| ==> reducedResults[k] == Annotated(k, resources[k], records)
    {
      reducedResults := reducedResults[j := reducedResults[j].(blurDataUrl := Some(imagesWithBlurDataUrls[j]))];
      j := j + 1;
    }
    res := Listing(reducedResults, |reducedResults|);
  }
}
