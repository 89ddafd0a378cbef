/** The loosely shaped records the two scrapers hand to `normalizeEvent`:
    every field optional, several aliases per field, and a location that may
    be a text or an object with a name or an address. */
module RawRecords {
  import opened Wrappers
  import opened Strings

  /** `e.location`: a text, or an object with optional `name` and `address`. */
  datatype Place = PlaceText(text: string) | PlaceObject(name: Option<string>, address: Option<string>)

  datatype Raw = Raw(
    title: Option<string>, name: Option<string>,
    dateInfo: Option<string>, startDate: Option<string>, start: Option<string>, date: Option<string>,
    timeStart: Option<string>, startTime: Option<string>,
    location: Option<Place>, venue: Option<string>, place: Option<string>,
    description: Option<string>,
    eventUrl: Option<string>, url: Option<string>, link: Option<string>,
    category: Option<string>, kind: Option<string>,   // `kind` is the field `type`
    price: Option<string>)

  /** A record with the canonical fields only, as the extractors build them. */
  function Canonical(title: Option<string>, dateInfo: Option<string>, timeStart: Option<string>,
                     location: Option<string>, description: Option<string>, eventUrl: Option<string>,
                     category: Option<string>, price: Option<string>): Raw
  {
    Raw(title, None, dateInfo, None, None, None, timeStart, None,
        if location.Some? then Some(PlaceText(location.value)) else None, None, None,
        description, eventUrl, None, None, category, None, price)
  }

  /** What `e.location?.name || e.location?.address || e.venue || e.place || e.location || ''`
      evaluates to: a text, or the location object itself when nothing before it is set. */
  datatype LocationValue = LocText(text: string) | LocObject

  function RawLocation(e: Raw): (r: LocationValue)
    ensures e.location.Some? && e.location.value.PlaceObject? && Truthy(e.location.value.name) ==>
      r == LocText(e.location.value.name.value)
    ensures r == LocObject <==>
      e.location.Some? && e.location.value.PlaceObject? && !Truthy(e.location.value.name)
      && !Truthy(e.location.value.address) && !Truthy(e.venue) && !Truthy(e.place)
  {
    var objName := if e.location.Some? && e.location.value.PlaceObject? then e.location.value.name else None;
    var objAddress := if e.location.Some? && e.location.value.PlaceObject? then e.location.value.address else None;
    var named := Or(Or(Or(objName, objAddress), e.venue), e.place);
    if Truthy(named) then LocText(named.value)
    else if e.location.Some? && e.location.value.PlaceText? then LocText(e.location.value.text)
    else if e.location.Some? then LocObject
    else LocText("")
  }

  /** `String(v)` of the location value. */
  function LocationString(v: LocationValue): string {
    if v.LocText? then v.text else "[object Object]"
  }
}
