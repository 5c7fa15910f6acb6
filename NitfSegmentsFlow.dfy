/**
 * The traversal layer over a finished parse: a flow holds the parse strategy that
 * collected the segments and hands its image headers with their data, its data-extension
 * headers and its file header to consumers the caller supplies, in list order, returning
 * itself so calls can be chained.
 *
 * What a consumer does is not part of this model: each call a consumer receives is
 * appended to the flow's ghost record `deliveries`, and the streams handed to image
 * consumers are kept, in order, in `streams`.
 */
module SegmentsFlow {
  import opened NitfCommon

  /** The parsed headers, kept opaque: the flow only passes them on. */
  datatype NitfImageSegmentHeader = NitfImageSegmentHeader(fields: seq<byte>)
  datatype NitfDataExtensionSegmentHeader = NitfDataExtensionSegmentHeader(fields: seq<byte>)
  datatype NitfFileHeader = NitfFileHeader(fields: seq<byte>)

  /** The exceptions a flow raises itself. */
  datatype FlowError =
    | IllegalArgument
    | IndexOutOfBounds(index: nat)

  /**
   * One consumer call. An image consumer also receives a stream, recorded beside the
   * call in `streams`; `data` is the array that stream reads. A file header the strategy
   * never set is `None`, Java's `null`.
   */
  datatype Delivery =
    | ImageDelivery(header: NitfImageSegmentHeader, data: seq<byte>)
    | DataExtensionDelivery(dataExtension: NitfDataExtensionSegmentHeader)
    | FileHeaderDelivery(fileHeader: Option<NitfFileHeader>)

  /** The lists a slotted parse strategy fills while parsing, read through its getters. */
  class SlottedNitfParseStrategy {
    var imageSegmentHeaders: seq<NitfImageSegmentHeader>
    var imageSegmentData: seq<seq<byte>>
    var dataExtensionSegmentHeaders: seq<NitfDataExtensionSegmentHeader>
    var nitfHeader: Option<NitfFileHeader>

    constructor (images: seq<NitfImageSegmentHeader>, data: seq<seq<byte>>,
                 dataExtensions: seq<NitfDataExtensionSegmentHeader>, header: Option<NitfFileHeader>)
      ensures imageSegmentHeaders == images && imageSegmentData == data
      ensures dataExtensionSegmentHeaders == dataExtensions && nitfHeader == header
    {
      imageSegmentHeaders, imageSegmentData := images, data;
      dataExtensionSegmentHeaders, nitfHeader := dataExtensions, header;
    }

    function GetImageSegmentHeaders(): seq<NitfImageSegmentHeader>
      reads this
    {
      imageSegmentHeaders
    }

    function GetImageSegmentData(): seq<seq<byte>>
      reads this
    {
      imageSegmentData
    }

    function GetDataExtensionSegmentHeaders(): seq<NitfDataExtensionSegmentHeader>
      reads this
    {
      dataExtensionSegmentHeaders
    }

    function GetNitfHeader(): Option<NitfFileHeader>
      reads this
    {
      nitfHeader
    }
  }

  /** A stream over one image's data array, positioned at its start. */
  class ImageInputStream {
    const data: seq<byte>
    var position: nat

    constructor (data: seq<byte>)
      ensures this.data == data && position == 0
    {
      this.data := data;
      position := 0;
    }
  }

  /** The calls an image traversal makes for its first `n` entries, in index order. */
  function ImageDeliveries(headers: seq<NitfImageSegmentHeader>, data: seq<seq<byte>>, n: nat): (r: seq<Delivery>)
    requires n <= |headers| && n <= |data|
    ensures |r| == n
    ensures forall k :: 0 <= k < n ==> r[k].ImageDelivery?
  {
    if n == 0 then [] else ImageDeliveries(headers, data, n - 1) + [ImageDelivery(headers[n - 1], data[n - 1])]
  }

  /** The calls a data-extension traversal makes, one per header, in list order. */
  function DataExtensionDeliveries(headers: seq<NitfDataExtensionSegmentHeader>): (r: seq<Delivery>)
    ensures |r| == |headers|
    ensures forall k :: 0 <= k < |r| ==> r[k].DataExtensionDelivery?
  {
    if headers == [] then [] else DataExtensionDeliveries(headers[..|headers| - 1]) + [DataExtensionDelivery(headers[|headers| - 1])]
  }

  /** Entry `k` of an image traversal pairs header `k` with data array `k`. */
  lemma {:induction false} ImageDeliveriesPairUp(headers: seq<NitfImageSegmentHeader>, data: seq<seq<byte>>, n: nat)
    requires n <= |headers| && n <= |data|
    ensures forall k :: 0 <= k < n ==> ImageDeliveries(headers, data, n)[k] == ImageDelivery(headers[k], data[k])
  {
    if n > 0 {
      ImageDeliveriesPairUp(headers, data, n - 1);
    }
  }

  /** Stopping an image traversal earlier gives a prefix of its calls. */
  lemma {:induction false} ImageDeliveriesPrefix(headers: seq<NitfImageSegmentHeader>, data: seq<seq<byte>>, m: nat, n: nat)
    requires m <= n <= |headers| && n <= |data|
    ensures ImageDeliveries(headers, data, n)[..m] == ImageDeliveries(headers, data, m)
    decreases n
  {
    if m < n {
      ImageDeliveriesPrefix(headers, data, m, n - 1);
      assert ImageDeliveries(headers, data, n)[..n - 1] == ImageDeliveries(headers, data, n - 1);
    }
  }

  /** Entry `k` of a data-extension traversal is header `k`. */
  lemma {:induction false} DataExtensionDeliveriesInOrder(headers: seq<NitfDataExtensionSegmentHeader>)
    ensures forall k :: 0 <= k < |headers| ==> DataExtensionDeliveries(headers)[k] == DataExtensionDelivery(headers[k])
    decreases |headers|
  {
    if headers != [] {
      DataExtensionDeliveriesInOrder(headers[..|headers| - 1]);
    }
  }

  /** A data-extension traversal of a list followed by one more header. */
  lemma DataExtensionDeliveriesSnoc(headers: seq<NitfDataExtensionSegmentHeader>, header: NitfDataExtensionSegmentHeader)
    ensures DataExtensionDeliveries(headers + [header]) == DataExtensionDeliveries(headers) + [DataExtensionDelivery(header)]
  {
    assert (headers + [header])[..|headers|] == headers;
  }

  class NitfSegmentsFlow {
    const parseStrategy: SlottedNitfParseStrategy
    /** Every consumer call this flow has made, oldest first. */
    ghost var deliveries: seq<Delivery>
    /** The stream handed to each image consumer call, oldest first. */
    ghost var streams: seq<ImageInputStream>

    constructor (parseStrategy: SlottedNitfParseStrategy)
      ensures this.parseStrategy == parseStrategy && deliveries == [] && streams == []
    {
      this.parseStrategy := parseStrategy;
      deliveries, streams := [], [];
    }

    /** The constructor's argument check: a null strategy is an illegal argument. */
    static method Create(parseStrategy: SlottedNitfParseStrategy?) returns (r: Result<NitfSegmentsFlow, FlowError>)
      ensures parseStrategy == null ==> r == Err(IllegalArgument)
      ensures parseStrategy != null ==>
        && r.Ok? && fresh(r.value) && r.value.parseStrategy == parseStrategy
        && r.value.deliveries == [] && r.value.streams == []
    {
      if parseStrategy == null {
        return Err(IllegalArgument);
      }
      var flow := new NitfSegmentsFlow(parseStrategy);
      return Ok(flow);
    }

    /**
     * `forEachImage`: one call per entry of the image-data list, in index order, with the
     * header of the same index and a fresh stream over that entry's bytes. A header list
     * shorter than the data list ends the loop with an index error at the first index
     * that has no header, after the calls before it.
     */
    method ForEachImage() returns (r: Result<NitfSegmentsFlow, FlowError>)
      modifies this`deliveries, this`streams
      ensures var headers, data := parseStrategy.imageSegmentHeaders, parseStrategy.imageSegmentData;
        var n := if |headers| < |data| then |headers| else |data|;
        && deliveries == old(deliveries) + ImageDeliveries(headers, data, n)
        && |streams| == |old(streams)| + n && streams[..|old(streams)|] == old(streams)
        && (forall k :: |old(streams)| <= k < |streams| ==> fresh(streams[k]) && streams[k].data == data[k - |old(streams)|] && streams[k].position == 0)
        && (forall i, j :: |old(streams)| <= i < j < |streams| ==> streams[i] != streams[j])
        && r == if |headers| < |data| then Err(IndexOutOfBounds(|headers|)) else Ok(this)
    {
      var imageDataArrays := parseStrategy.GetImageSegmentData();
      var headers := parseStrategy.GetImageSegmentHeaders();
      ghost var before, streamsBefore := deliveries, streams;
      for i := 0 to |imageDataArrays|
        invariant i <= |headers|
        invariant deliveries == before + ImageDeliveries(headers, imageDataArrays, i)
        invariant |streams| == |streamsBefore| + i && streams[..|streamsBefore|] == streamsBefore
        invariant forall k :: |streamsBefore| <= k < |streams| ==> fresh(streams[k]) && streams[k].data == imageDataArrays[k - |streamsBefore|] && streams[k].position == 0
        invariant forall i', j :: |streamsBefore| <= i' < j < |streams| ==> streams[i'] != streams[j]
      {
        var imageData := imageDataArrays[i];
        if i >= |headers| {
          return Err(IndexOutOfBounds(i));
        }
        var header := headers[i];
        var imageInputStream := new ImageInputStream(imageData);
        deliveries := deliveries + [ImageDelivery(header, imageData)];
        streams := streams + [imageInputStream];
      }
      return Ok(this);
    }

    /** `forEachDataSegment`: one call per data-extension header, in list order. */
    method ForEachDataSegment() returns (r: NitfSegmentsFlow)
      modifies this`deliveries
      ensures deliveries == old(deliveries) + DataExtensionDeliveries(parseStrategy.dataExtensionSegmentHeaders)
      ensures r == this
    {
      var headers := parseStrategy.GetDataExtensionSegmentHeaders();
      ghost var before := deliveries;
      for i := 0 to |headers|
        invariant deliveries == before + DataExtensionDeliveries(headers[..i])
      {
        DataExtensionDeliveriesSnoc(headers[..i], headers[i]);
        assert headers[..i + 1] == headers[..i] + [headers[i]];
        deliveries := deliveries + [DataExtensionDelivery(headers[i])];
      }
      assert headers[..|headers|] == headers;
      return this;
    }

    /** `fileHeader`: exactly one call, with the strategy's file header. */
    method FileHeader() returns (r: NitfSegmentsFlow)
      modifies this`deliveries
      ensures deliveries == old(deliveries) + [FileHeaderDelivery(parseStrategy.nitfHeader)]
      ensures r == this
    {
      var nitfFileHeader := parseStrategy.GetNitfHeader();
      deliveries := deliveries + [FileHeaderDelivery(nitfFileHeader)];
      return this;
    }
  }
}
