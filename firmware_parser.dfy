/**
 * The index-tree mapper: from an already-parsed XML element tree
 * INDEX > DEVICE > HARDWARE > RELEASE > IMAGE to a hierarchy of plain records.
 * Unknown child tags are skipped, absent string attributes read as "",
 * and LENGTH, TARGET and SUBID read as 0 when absent or not an integer.
 */
module Parser {
  import opened Wrappers
  import PyInt

  /** An XML element: its tag, its attributes, and its element children in document order. */
  datatype Elem = Elem(tag: string, attrs: map<string, string>, children: seq<Elem>)

  datatype Image = Image(
    filename: string, md5: string, nxhVersion: string, lBudVersion: string,
    rBudVersion: string, revision: string, buildId: string,
    length: int, target: int, subid: int)

  datatype Release = Release(
    channel: string, date: string, httphost: string, urlpath: string,
    revision: string, images: seq<Image>)

  datatype Hardware = Hardware(revision: string, releases: seq<Release>)

  datatype Device = Device(id: string, productname: string, hardware: seq<Hardware>)

  datatype FirmwareIndex = FirmwareIndex(revision: string, devices: seq<Device>)

  /** FirmwareIndex() with its defaults: what a failed parse returns. */
  const EmptyIndex := FirmwareIndex("", [])

  /** elem.get(key, default) */
  function Get(e: Elem, key: string, default: string): string {
    if key in e.attrs then e.attrs[key] else default
  }

  /** int(elem.get(key, "0")), with 0 when int() raises ValueError. */
  function IntAttr(e: Elem, key: string): int {
    match PyInt.ParseInt(Get(e, key, "0"))
    case Some(v) => v
    case None => 0
  }

  // ---------------------------------------------------------------------------
  // Selecting children by tag

  /** The children tagged `tag`, in document order. */
  function Select(cs: seq<Elem>, tag: string): seq<Elem> {
    if cs == [] then []
    else if cs[|cs| - 1].tag == tag then Select(cs[..|cs| - 1], tag) + [cs[|cs| - 1]]
    else Select(cs[..|cs| - 1], tag)
  }

  /** The positions of the children tagged `tag`: each one of them exactly once, ascending. */
  function Positions(cs: seq<Elem>, tag: string): (p: seq<nat>)
    ensures forall k :: 0 <= k < |p| ==> p[k] < |cs| && cs[p[k]].tag == tag
    ensures forall k, l :: 0 <= k < l < |p| ==> p[k] < p[l]
    ensures forall i :: 0 <= i < |cs| && cs[i].tag == tag ==> i in p
  {
    if cs == [] then []
    else if cs[|cs| - 1].tag == tag then Positions(cs[..|cs| - 1], tag) + [|cs| - 1]
    else Positions(cs[..|cs| - 1], tag)
  }

  function Map<A, B>(f: A -> B, s: seq<A>): (r: seq<B>)
    ensures |r| == |s|
  {
    if s == [] then [] else Map(f, s[..|s| - 1]) + [f(s[|s| - 1])]
  }

  lemma {:induction false} MapAt<A, B>(f: A -> B, s: seq<A>)
    ensures forall k :: 0 <= k < |s| ==> Map(f, s)[k] == f(s[k])
  {
    if s != [] {
      MapAt(f, s[..|s| - 1]);
    }
  }

  lemma {:induction false} SelectAtPositions(cs: seq<Elem>, tag: string)
    ensures |Select(cs, tag)| == |Positions(cs, tag)|
    ensures forall k :: 0 <= k < |Positions(cs, tag)| ==> Select(cs, tag)[k] == cs[Positions(cs, tag)[k]]
  {
    if cs != [] {
      SelectAtPositions(cs[..|cs| - 1], tag);
    }
  }

  /**
   * Mapping `f` over the children tagged `tag` gives one record per such child,
   * in document order: the k-th record is `f` of the k-th tagged child.
   */
  lemma ChildRecords<R>(f: Elem -> R, cs: seq<Elem>, tag: string)
    ensures |Map(f, Select(cs, tag))| == |Positions(cs, tag)|
    ensures forall k :: 0 <= k < |Positions(cs, tag)| ==>
      Map(f, Select(cs, tag))[k] == f(cs[Positions(cs, tag)[k]])
  {
    SelectAtPositions(cs, tag);
    MapAt(f, Select(cs, tag));
  }

  lemma {:induction false} SelectAppend(a: seq<Elem>, b: seq<Elem>, tag: string)
    ensures Select(a + b, tag) == Select(a, tag) + Select(b, tag)
  {
    if b == [] {
      assert a + b == a;
    } else {
      var b' := b[..|b| - 1];
      assert (a + b)[..|a + b| - 1] == a + b';
      SelectAppend(a, b', tag);
    }
  }

  /** A child with another tag contributes nothing, wherever it stands. */
  lemma SelectIgnoresOtherTag(before: seq<Elem>, x: Elem, after: seq<Elem>, tag: string)
    requires x.tag != tag
    ensures Select(before + [x] + after, tag) == Select(before + after, tag)
  {
    SelectAppend(before + [x], after, tag);
    SelectAppend(before, [x], tag);
    SelectAppend(before, after, tag);
    assert Select([x], tag) == [];
  }

  // ---------------------------------------------------------------------------
  // The records an element tree denotes

  function ImageRecord(e: Elem): Image {
    Image(
      Get(e, "FILENAME", ""), Get(e, "MD5", ""), Get(e, "NXH_VERSION", ""),
      Get(e, "L_BUD_VERSION", ""), Get(e, "R_BUD_VERSION", ""), Get(e, "REVISION", ""),
      Get(e, "BUILD_ID", ""),
      IntAttr(e, "LENGTH"), IntAttr(e, "TARGET"), IntAttr(e, "SUBID"))
  }

  function ReleaseRecord(e: Elem): Release {
    Release(
      Get(e, "CHANNEL", ""), Get(e, "DATE", ""), Get(e, "HTTPHOST", ""),
      Get(e, "URLPATH", ""), Get(e, "REVISION", ""),
      Map(ImageRecord, Select(e.children, "IMAGE")))
  }

  function HardwareRecord(e: Elem): Hardware {
    Hardware(Get(e, "REVISION", ""), Map(ReleaseRecord, Select(e.children, "RELEASE")))
  }

  function DeviceRecord(e: Elem): Device {
    Device(Get(e, "ID", ""), Get(e, "PRODUCTNAME", ""), Map(HardwareRecord, Select(e.children, "HARDWARE")))
  }

  function IndexRecord(root: Elem): FirmwareIndex {
    FirmwareIndex(Get(root, "REVISION", ""), Map(DeviceRecord, Select(root.children, "DEVICE")))
  }

  // ---------------------------------------------------------------------------
  // Properties of the mapping

  /** The attribute a string field reads, or "" when the element lacks it. */
  predicate StringField(e: Elem, key: string, value: string) {
    value == if key in e.attrs then e.attrs[key] else ""
  }

  /** An integer field: the attribute's integer value, or 0 when it is absent or not an integer. */
  predicate IntField(e: Elem, key: string, value: int) {
    value == if key in e.attrs && PyInt.ParseInt(e.attrs[key]).Some? then PyInt.ParseInt(e.attrs[key]).value else 0
  }

  /** Every field of an image record reads its exactly-named attribute, with its default. */
  lemma ImageFields(e: Elem)
    ensures var image := ImageRecord(e);
      && StringField(e, "FILENAME", image.filename)
      && StringField(e, "MD5", image.md5)
      && StringField(e, "NXH_VERSION", image.nxhVersion)
      && StringField(e, "L_BUD_VERSION", image.lBudVersion)
      && StringField(e, "R_BUD_VERSION", image.rBudVersion)
      && StringField(e, "REVISION", image.revision)
      && StringField(e, "BUILD_ID", image.buildId)
      && IntField(e, "LENGTH", image.length)
      && IntField(e, "TARGET", image.target)
      && IntField(e, "SUBID", image.subid)
  {
    PyInt.ParseIntOfDecimalString(0);
    assert PyInt.DecimalString(0) == "0";
  }

  /** The string fields of a release read their exactly-named attributes, "" when absent. */
  lemma ReleaseFields(e: Elem)
    ensures var release := ReleaseRecord(e);
      && StringField(e, "CHANNEL", release.channel)
      && StringField(e, "DATE", release.date)
      && StringField(e, "HTTPHOST", release.httphost)
      && StringField(e, "URLPATH", release.urlpath)
      && StringField(e, "REVISION", release.revision)
  {
  }

  /** The string fields of hardware entries, devices and the index read their exactly-named attributes, "" when absent. */
  lemma ContainerFields(e: Elem)
    ensures StringField(e, "REVISION", HardwareRecord(e).revision)
    ensures StringField(e, "ID", DeviceRecord(e).id) && StringField(e, "PRODUCTNAME", DeviceRecord(e).productname)
    ensures StringField(e, "REVISION", IndexRecord(e).revision)
  {
  }

  /** An integer attribute written as str() writes integers yields exactly that integer, with no range check. */
  lemma WellFormedIntegerField(e: Elem, key: string, n: int)
    requires key in e.attrs && e.attrs[key] == PyInt.DecimalString(n)
    ensures IntAttr(e, key) == n
  {
    PyInt.ParseIntOfDecimalString(n);
  }

  /** An image record depends on nothing but its own element's attributes. */
  lemma ImageDependsOnlyOnAttributes(e1: Elem, e2: Elem)
    requires e1.attrs == e2.attrs
    ensures ImageRecord(e1) == ImageRecord(e2)
  {
  }

  /** One device per DEVICE child of the root, in document order. */
  lemma DevicesInDocumentOrder(root: Elem)
    ensures var devices := IndexRecord(root).devices; var p := Positions(root.children, "DEVICE");
      |devices| == |p| && forall k :: 0 <= k < |p| ==> devices[k] == DeviceRecord(root.children[p[k]])
  {
    ChildRecords(DeviceRecord, root.children, "DEVICE");
  }

  /** One hardware entry per HARDWARE child of a device, in document order. */
  lemma HardwareInDocumentOrder(e: Elem)
    ensures var hardware := DeviceRecord(e).hardware; var p := Positions(e.children, "HARDWARE");
      |hardware| == |p| && forall k :: 0 <= k < |p| ==> hardware[k] == HardwareRecord(e.children[p[k]])
  {
    ChildRecords(HardwareRecord, e.children, "HARDWARE");
  }

  /** One release per RELEASE child of a hardware element, in document order. */
  lemma ReleasesInDocumentOrder(e: Elem)
    ensures var releases := HardwareRecord(e).releases; var p := Positions(e.children, "RELEASE");
      |releases| == |p| && forall k :: 0 <= k < |p| ==> releases[k] == ReleaseRecord(e.children[p[k]])
  {
    ChildRecords(ReleaseRecord, e.children, "RELEASE");
  }

  /** One image per IMAGE child of a release, in document order. */
  lemma ImagesInDocumentOrder(e: Elem)
    ensures var images := ReleaseRecord(e).images; var p := Positions(e.children, "IMAGE");
      |images| == |p| && forall k :: 0 <= k < |p| ==> images[k] == ImageRecord(e.children[p[k]])
  {
    ChildRecords(ImageRecord, e.children, "IMAGE");
  }

  /** A root child that is not a DEVICE changes nothing in the index, wherever it stands. */
  lemma IndexIgnoresUnknownChild(root: Elem, before: seq<Elem>, x: Elem, after: seq<Elem>)
    requires root.children == before + [x] + after && x.tag != "DEVICE"
    ensures IndexRecord(root) == IndexRecord(root.(children := before + after))
  {
    SelectIgnoresOtherTag(before, x, after, "DEVICE");
  }

  // ---------------------------------------------------------------------------
  // The parser: each level creates a default record, fills in its fields, and
  // appends the records of its matching children one at a time.

  lemma SelectSnoc(cs: seq<Elem>, i: nat, tag: string)
    requires i < |cs|
    ensures cs[i].tag == tag ==> Select(cs[..i + 1], tag) == Select(cs[..i], tag) + [cs[i]]
    ensures cs[i].tag != tag ==> Select(cs[..i + 1], tag) == Select(cs[..i], tag)
  {
    assert cs[..i + 1][..i] == cs[..i];
  }

  lemma MapSnoc<A, B>(f: A -> B, s: seq<A>, x: A)
    ensures Map(f, s + [x]) == Map(f, s) + [f(x)]
  {
    assert (s + [x])[..|s|] == s;
  }

  method ParseImage(e: Elem) returns (image: Image)
    ensures image == ImageRecord(e)
  {
    image := Image("", "", "", "", "", "", "", 0, 0, 0);
    image := image.(filename := Get(e, "FILENAME", ""));
    image := image.(md5 := Get(e, "MD5", ""));
    image := image.(nxhVersion := Get(e, "NXH_VERSION", ""));
    image := image.(lBudVersion := Get(e, "L_BUD_VERSION", ""));
    image := image.(rBudVersion := Get(e, "R_BUD_VERSION", ""));
    image := image.(revision := Get(e, "REVISION", ""));
    image := image.(buildId := Get(e, "BUILD_ID", ""));
    image := image.(length := IntAttr(e, "LENGTH"));
    image := image.(target := IntAttr(e, "TARGET"));
    image := image.(subid := IntAttr(e, "SUBID"));
  }

  method ParseRelease(e: Elem) returns (release: Release)
    ensures release == ReleaseRecord(e)
  {
    release := Release("", "", "", "", "", []);
    release := release.(channel := Get(e, "CHANNEL", ""));
    release := release.(date := Get(e, "DATE", ""));
    release := release.(httphost := Get(e, "HTTPHOST", ""));
    release := release.(urlpath := Get(e, "URLPATH", ""));
    release := release.(revision := Get(e, "REVISION", ""));
    for i := 0 to |e.children|
      invariant release.images == Map(ImageRecord, Select(e.children[..i], "IMAGE"))
      invariant release.channel == Get(e, "CHANNEL", "") && release.date == Get(e, "DATE", "")
      invariant release.httphost == Get(e, "HTTPHOST", "") && release.urlpath == Get(e, "URLPATH", "")
      invariant release.revision == Get(e, "REVISION", "")
    {
      SelectSnoc(e.children, i, "IMAGE");
      var child := e.children[i];
      if child.tag == "IMAGE" {
        var image := ParseImage(child);
        MapSnoc(ImageRecord, Select(e.children[..i], "IMAGE"), child);
        release := release.(images := release.images + [image]);
      }
    }
    assert e.children[..|e.children|] == e.children;
  }

  method ParseHardware(e: Elem) returns (hardware: Hardware)
    ensures hardware == HardwareRecord(e)
  {
    hardware := Hardware("", []);
    hardware := hardware.(revision := Get(e, "REVISION", ""));
    for i := 0 to |e.children|
      invariant hardware.releases == Map(ReleaseRecord, Select(e.children[..i], "RELEASE"))
      invariant hardware.revision == Get(e, "REVISION", "")
    {
      SelectSnoc(e.children, i, "RELEASE");
      var child := e.children[i];
      if child.tag == "RELEASE" {
        var release := ParseRelease(child);
        MapSnoc(ReleaseRecord, Select(e.children[..i], "RELEASE"), child);
        hardware := hardware.(releases := hardware.releases + [release]);
      }
    }
    assert e.children[..|e.children|] == e.children;
  }

  method ParseDevice(e: Elem) returns (device: Device)
    ensures device == DeviceRecord(e)
  {
    device := Device("", "", []);
    device := device.(id := Get(e, "ID", ""));
    device := device.(productname := Get(e, "PRODUCTNAME", ""));
    for i := 0 to |e.children|
      invariant device.hardware == Map(HardwareRecord, Select(e.children[..i], "HARDWARE"))
      invariant device.id == Get(e, "ID", "") && device.productname == Get(e, "PRODUCTNAME", "")
    {
      SelectSnoc(e.children, i, "HARDWARE");
      var child := e.children[i];
      if child.tag == "HARDWARE" {
        var hardware := ParseHardware(child);
        MapSnoc(HardwareRecord, Select(e.children[..i], "HARDWARE"), child);
        device := device.(hardware := device.hardware + [hardware]);
      }
    }
    assert e.children[..|e.children|] == e.children;
  }

  method ParseRoot(root: Elem) returns (index: FirmwareIndex)
    ensures index == IndexRecord(root)
  {
    index := EmptyIndex;
    index := index.(revision := Get(root, "REVISION", ""));
    for i := 0 to |root.children|
      invariant index.devices == Map(DeviceRecord, Select(root.children[..i], "DEVICE"))
      invariant index.revision == Get(root, "REVISION", "")
    {
      SelectSnoc(root.children, i, "DEVICE");
      var child := root.children[i];
      if child.tag == "DEVICE" {
        var device := ParseDevice(child);
        MapSnoc(DeviceRecord, Select(root.children[..i], "DEVICE"), child);
        index := index.(devices := index.devices + [device]);
      }
    }
    assert root.children[..|root.children|] == root.children;
  }

  /**
   * parse_from_string: `fromString` stands for the XML text parser, None where it raises.
   * Any failure yields the default index.
   */
  method ParseFromString(xmlContent: string, fromString: string -> Option<Elem>) returns (index: FirmwareIndex)
    ensures fromString(xmlContent).None? ==> index == EmptyIndex
    ensures fromString(xmlContent).Some? ==> index == IndexRecord(fromString(xmlContent).value)
  {
    match fromString(xmlContent)
    case None =>
      index := EmptyIndex;
    case Some(root) =>
      index := ParseRoot(root);
  }

  /**
   * parse: `readAndParse` stands for reading the named file and parsing its XML,
   * None where either raises. Any failure yields the default index.
   */
  method Parse(xmlFile: string, readAndParse: string -> Option<Elem>) returns (index: FirmwareIndex)
    ensures readAndParse(xmlFile).None? ==> index == EmptyIndex
    ensures readAndParse(xmlFile).Some? ==> index == IndexRecord(readAndParse(xmlFile).value)
  {
    match readAndParse(xmlFile)
    case None =>
      index := EmptyIndex;
    case Some(root) =>
      index := ParseRoot(root);
  }
}
