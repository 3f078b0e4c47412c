/** The `gallery` collection of paywall records, written by the paywall
    endpoint and read by the image listing. Nothing enforces one record per
    image: inserts append in natural order. */
module GalleryStore {
  import opened Wrappers
  import opened Documents

  /** A paywall document. `public_id` and `url` are whatever the request
      carried; an absent field is stored as null (`None`). */
  datatype PaywallRecord = PaywallRecord(
    id: ObjectId,
    public_id: Option<string>,
    url: Option<string>,
    paywall: string,
    createdAt: Time)

  /** The driver's `InsertOneResult`. */
  datatype InsertResult = InsertResult(acknowledged: bool, insertedId: ObjectId)

  /** Index `i` holds the first record for the image. */
  predicate FirstMatchAt(records: seq<PaywallRecord>, publicId: string, i: int) {
    && 0 <= i < |records| && records[i].public_id == Some(publicId)
    && forall j :: 0 <= j < i ==> records[j].public_id != Some(publicId)
  }

  /** `findOne({ public_id })`: the first record in natural order for that
      image. */
  function FindPaywall(records: seq<PaywallRecord>, publicId: string): (r: Option<PaywallRecord>)
    ensures r.None? <==> forall i :: 0 <= i < |records| ==> records[i].public_id != Some(publicId)
    ensures r.Some? ==> exists i :: FirstMatchAt(records, publicId, i) && records[i] == r.value
  {
    if records == [] then None
    else if records[0].public_id == Some(publicId) then Some(records[0])
    else
      var r := FindPaywall(records[1..], publicId);
      if r.Some? then
        var i :| FirstMatchAt(records[1..], publicId, i) && records[1..][i] == r.value;
        assert FirstMatchAt(records, publicId, i + 1);
        r
      else r
  }

  /** Appending records never changes which record a lookup finds once one
      exists: a later paywall for the same image is shadowed by the first. */
  lemma {:induction false} FirstPaywallWins(records: seq<PaywallRecord>, more: seq<PaywallRecord>, publicId: string)
    requires FindPaywall(records, publicId).Some?
    ensures FindPaywall(records + more, publicId) == FindPaywall(records, publicId)
  {
    if records[0].public_id != Some(publicId) {
      assert (records + more)[1..] == records[1..] + more;
      FirstPaywallWins(records[1..], more, publicId);
    }
  }

  /** Appending to a collection with no record for the image makes the first
      appended record for it the one found. */
  lemma {:induction false} AppendedPaywallFound(records: seq<PaywallRecord>, rec: PaywallRecord, more: seq<PaywallRecord>, publicId: string)
    requires FindPaywall(records, publicId).None? && rec.public_id == Some(publicId)
    ensures FindPaywall(records + [rec] + more, publicId) == Some(rec)
  {
    if records == [] {
      assert (records + [rec] + more)[0] == rec;
    } else {
      assert (records + [rec] + more)[1..] == records[1..] + [rec] + more;
      AppendedPaywallFound(records[1..], rec, more, publicId);
    }
  }

  class Gallery {
    /** The documents of the collection, in natural order. */
    var records: seq<PaywallRecord>
    /** The next ObjectId the driver will hand out. */
    var nextId: ObjectId

    ghost predicate Valid()
      reads this
    {
      forall i :: 0 <= i < |records| ==> records[i].id < nextId
    }

    constructor ()
      ensures Valid() && records == [] && nextId == 0
    {
      records := [];
      nextId := 0;
    }

    /** `insertOne`: appends one document with a fresh id, or, when the
        connection or the insert fails (`fault`), changes nothing. */
    method InsertOne(publicId: Option<string>, url: Option<string>, paywall: string, now: Time, fault: bool)
      returns (r: Option<InsertResult>)
      requires Valid()
      modifies this
      ensures Valid()
      ensures fault ==> r.None? && unchanged(this)
      ensures !fault ==>
        && records == old(records) + [PaywallRecord(old(nextId), publicId, url, paywall, now)]
        && nextId == old(nextId) + 1
        && r == Some(InsertResult(true, old(nextId)))
    {
      if fault {
        return None;
      }
      records := records + [PaywallRecord(nextId, publicId, url, paywall, now)];
      r := Some(InsertResult(true, nextId));
      nextId := nextId + 1;
    }
  }
}
