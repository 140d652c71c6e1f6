/** The image-selection loop of lambda_handler in ozone/templates/examples/list_amis.py:
    among the images describe_images returned, pick the one created most recently. */
module ListAmis {
  import opened Wrappers

  /** An image record of describe_images, with its CreationDate already parsed into an
      integer timestamp (larger is later). */
  datatype Image = Image(imageId: string, creationDate: int)

  /** The `data` dictionary sent back to CloudFormation: `{'ImageId': ...}`. */
  datatype ResponseData = ResponseData(imageId: string)

  /** `today - date`: the age of an image at the time `today`; smaller is newer. */
  function Age(today: int, image: Image): int
  {
    today - image.creationDate
  }

  /** The index of the newest image of a non-empty list, the first such one on ties: what a
      left-to-right scan that replaces its choice only on a strictly smaller age picks. */
  function Newest(images: seq<Image>, today: int): (k: nat)
    requires |images| > 0
    ensures k < |images|
    ensures forall j :: 0 <= j < |images| ==> Age(today, images[k]) <= Age(today, images[j])
    ensures forall j :: 0 <= j < k ==> Age(today, images[k]) < Age(today, images[j])
  {
    if |images| == 1 then 0
    else
      var k := Newest(images[..|images| - 1], today);
      if Age(today, images[|images| - 1]) < Age(today, images[k]) then |images| - 1 else k
  }

  /** Lines 42-58 of lambda_handler, with describe_images's answer and utcnow() passed in.
      `None` stands for a variable the handler never assigned: `result` and `data` are
      assigned only inside the loop, which runs over the list after its last element was
      popped. An empty list makes `[0]` raise IndexError, which the handler catches. */
  method SelectLatestImage(images: seq<Image>, today: int) returns (result: Option<string>, data: Option<ResponseData>)
    ensures |images| <= 1 ==> result == None && data == None
    ensures |images| >= 2 ==> result == Some("SUCCESS")
    ensures |images| >= 2 ==> data == Some(ResponseData(images[Newest(images[..|images| - 1], today)].imageId))
  {
    if |images| == 0 {
      // req['Images'][0] raises IndexError; the except clause only prints it.
      return None, None;
    }
    result, data := Scan(images[0], images[..|images| - 1], today);  // req['Images'].pop()
  }

  /** The handler with the list scanned whole, without the `pop()`. */
  method SelectLatestImageFixed(images: seq<Image>, today: int) returns (result: Option<string>, data: Option<ResponseData>)
    ensures |images| == 0 ==> result == None && data == None
    ensures |images| >= 1 ==> result == Some("SUCCESS")
    ensures |images| >= 1 ==> data == Some(ResponseData(images[Newest(images, today)].imageId))
  {
    if |images| == 0 {
      return None, None;
    }
    result, data := Scan(images[0], images, today);
  }

  /** Lines 42-46 and 48-58: starting from `first`, the loop keeps the image of strictly
      smallest age seen so far and sets `data` and `result` on every pass. */
  method Scan(first: Image, candidates: seq<Image>, today: int) returns (result: Option<string>, data: Option<ResponseData>)
    requires candidates != [] ==> candidates[0] == first
    ensures candidates == [] ==> result == None && data == None
    ensures candidates != [] ==> result == Some("SUCCESS")
    ensures candidates != [] ==> data == Some(ResponseData(candidates[Newest(candidates, today)].imageId))
  {
    result, data := None, None;
    var theImage := first;
    var theDelta := Age(today, first);
    for i := 0 to |candidates|
      invariant theDelta == Age(today, theImage)
      invariant i == 0 ==> theImage == first && result == None && data == None
      invariant i > 0 ==> theImage == candidates[Newest(candidates[..i], today)]
      invariant i > 0 ==> result == Some("SUCCESS") && data == Some(ResponseData(theImage.imageId))
    {
      var image := candidates[i];
      var delta := Age(today, image);
      if delta < theDelta {
        theDelta := delta;
        theImage := image;
      }
      assert candidates[..i + 1][..i] == candidates[..i];
      data := Some(ResponseData(theImage.imageId));
      result := Some("SUCCESS");
    }
    assert candidates[..|candidates|] == candidates;
  }

  /** When the last image is strictly newer than every other, the handler as written reports
      an image strictly older than the newest one. */
  lemma PopMissesNewest(images: seq<Image>, today: int)
    requires |images| >= 2
    requires forall j :: 0 <= j < |images| - 1 ==> Age(today, images[|images| - 1]) < Age(today, images[j])
    ensures Age(today, images[Newest(images[..|images| - 1], today)]) > Age(today, images[Newest(images, today)])
  {
  }

  /** Two images, the newer one listed last: the handler as written reports the older one,
      the corrected handler the newer one. */
  lemma PopMissesNewestExample()
    ensures var images := [Image("ami-old", 100), Image("ami-new", 200)];
            images[Newest(images[..1], 1000)].imageId == "ami-old" &&
            images[Newest(images, 1000)].imageId == "ami-new"
  {
    var images := [Image("ami-old", 100), Image("ami-new", 200)];
    assert images[..1] == [Image("ami-old", 100)];
  }
}
