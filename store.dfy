/** The two globals `iss_positions` and `iss_sightings` and the load route
    that fills them. app.py and midterm.py carry the same globals and the
    same load function. */
module Store {
  import opened Records

  const PositionsMissing: string := "POSITION DATA FILE NOT FOUND\n"
  const SightingsMissing: string := "SIGHTINGS DATA FILE NOT FOUND\n"
  const Loaded: string := "Data has been loaded\n"

  class Globals {
    /** `iss_positions`: the parsed ISS.OEM_J2K_EPH.xml. */
    var positions: Doc
    /** `iss_sightings`: the parsed XMLsightingData_citiesUSA06.xml. */
    var sightings: Doc

    /** Both globals start as `{}`. */
    constructor()
      ensures positions == NoData && sightings == NoData
    {
      positions := NoData;
      sightings := NoData;
    }

    /** load: each argument is the parsed file, None when the file does not
        exist. A missing positions file stops before anything is assigned; a
        missing sightings file leaves the newly loaded positions in place. */
    method Load(positionFile: Option<Doc>, sightingFile: Option<Doc>) returns (msg: string)
      modifies this
      ensures positionFile.None? ==>
        msg == PositionsMissing && positions == old(positions) && sightings == old(sightings)
      ensures positionFile.Some? && sightingFile.None? ==>
        msg == SightingsMissing && positions == positionFile.value && sightings == old(sightings)
      ensures positionFile.Some? && sightingFile.Some? ==>
        msg == Loaded && positions == positionFile.value && sightings == sightingFile.value
    {
      if positionFile.None? {
        return PositionsMissing;
      }
      positions := positionFile.value;
      if sightingFile.None? {
        return SightingsMissing;
      }
      sightings := sightingFile.value;
      return Loaded;
    }
  }
}
