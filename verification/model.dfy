/** The records of pkg/model/types.go. Go's float64 fields are exact reals here. */
module Model {

  /** A float64 value that may be NaN. Only latitude can be NaN (at the Earth's centre). */
  datatype Float64 = Finite(value: real) | NaN

  /** One satellite's orbital elements, as decoded from a two-line element set. */
  datatype TleOrbitalElement = TleOrbitalElement(
    meanAnomaly: real,         // M0 [deg]
    meanMotion: real,          // M1 [rev/day]
    meanMotionDot: real,       // M2 [rev/day^2]
    eccentricity: real,        // [-]
    etYear: int,               // epoch year
    etDay: real,               // epoch day of year, 1-based, fractional
    orbitalInclination: real,  // [deg]
    raan: real,                // right ascension of the ascending node [deg]
    argumentOfPerigee: real    // [deg]
  )

  /** A propagated position: Earth-fixed Cartesian [km], geodetic angles [deg], altitude [km], speed [km/s]. */
  datatype SatLocation = SatLocation(
    x: real,
    y: real,
    z: real,
    lat: Float64,
    lng: real,
    alt: real,
    velocity: real
  )
}
