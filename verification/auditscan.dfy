/** Scanning an audit file: a hand-written parser that jumps from tag to tag and picks the requested columns. */
module AuditScan {
  import opened Common
  import opened ByteSearch
  import opened PropTree

  /** The first position from i on with a byte above '<'. */
  function SkipLow(data: string, i: nat): (r: Option<nat>)
    ensures r.Some? ==> i <= r.value < |data| && data[r.value] > '<'
    decreases |data| - i
  {
    if i >= |data| then None else if data[i] > '<' then Some(i) else SkipLow(data, i + 1)
  }

  /** Where following the links for the bytes of a tag name ends. */
  datatype Found = Missing | Named(name: string, index: nat) | OutOfRange

  function Walk(t: Tree, data: string, i: nat, k: nat): Found
    requires i <= k
    decreases |data| - k
  {
    if k >= |data| then OutOfRange
    else if data[i..k + 1] !in t then Missing
    else
      match t[data[i..k + 1]]
      case Leaf(name, index) => Named(name, index)
      case Inner => Walk(t, data, i, k + 1)
  }

  /** Skips an element that is not requested; the result is the position of the next tag behind it. */
  function SkipElement(data: string, i: nat): Option<nat> {
    match Find(data, i, '>')
    case None => None
    case Some(gt) =>
      if gt == 0 then None
      else if data[gt - 1] == '/' then Find(data, gt, '<')
      else
        match Find(data, gt, '<')
        case None => None
        case Some(end) => Find(data, end + 1, '<')
  }

  type Row = seq<string>

  /** Deals with the element whose tag name starts at i; nothing is returned if the data ends too early. */
  function TakeElement(t: Tree, data: string, i: nat, row: Row): Option<(nat, Row)> {
    match Walk(t, data, i, i)
    case OutOfRange => None
    case Missing => Skipped(SkipElement(data, i), row)
    case Named(name, index) => TakeNamed(data, i, row, name, index)
  }

  function Skipped(at: Option<nat>, row: Row): Option<(nat, Row)> {
    match at
    case None => None
    case Some(i) => Some((i, row))
  }

  function TakeNamed(data: string, i: nat, row: Row, name: string, index: nat): Option<(nat, Row)> {
    var k := i + |name|;
    if k > |data| || index >= |row| then None
    else if data[i..k] == name then
      match Find(data, k, '<')
      case None => None
      case Some(end) => Some((end + |name| + 2, row[index := data[k..end]]))
    else if k == |data| then None
    else if EmptyTag(data, i, name) then Some((k + 1, row[index := ""]))
    else Skipped(SkipElement(data, i), row)
  }

  /** The tag is the empty-element form of the name. */
  predicate EmptyTag(data: string, i: nat, name: string)
    requires i + |name| < |data|
  {
    var k := i + |name|;
    name != "" && data[k] == '>' && data[k - 1] == '/' && name[..|name| - 1] == data[i..k - 1]
  }

  lemma SkipGoesOn(data: string, i: nat)
    requires i < |data| && data[i] > '<'
    ensures SkipElement(data, i).Some? ==> i < SkipElement(data, i).value
  {
  }

  lemma TakeGoesOn(t: Tree, data: string, i: nat, row: Row)
    requires i < |data| && data[i] > '<'
    ensures TakeElement(t, data, i, row).Some? ==>
      i < TakeElement(t, data, i, row).value.0 && |TakeElement(t, data, i, row).value.1| == |row|
  {
    SkipGoesOn(data, i);
  }

  /** What every entry starts with: nothing but the values that are the same in the whole file. */
  datatype Globals = Globals(mac: string, ip: string, host: string, lastAudit: string)

  function SetColumn(row: Row, index: int, value: string): (r: Row)
    ensures |r| == |row|
  {
    if 0 <= index < |row| then row[index := value] else row
  }

  function Blank(size: nat): (r: Row)
    ensures |r| == size
  {
    seq(size, i => "")
  }

  function Base(t: Tree, g: Globals, size: nat): Row {
    var r1 := SetColumn(Blank(size), IndexOf(t, "macaddress>"), g.mac);
    var r2 := SetColumn(r1, IndexOf(t, "ipaddress>"), g.ip);
    var r3 := SetColumn(r2, IndexOf(t, "hostname>"), g.host);
    SetColumn(r3, IndexOf(t, "lastaudit>"), g.lastAudit)
  }
}
