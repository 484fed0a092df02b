/** The service center record as the database stores it. */
module CenterModel {
  import opened Common

  /** Widths of the bounded text columns. */
  const DistrictWidth: nat := 100
  const CenterNameWidth: nat := 100
  const CenterContactWidth: nat := 20
  const LocationWidth: nat := 100
  const LandmarkWidth: nat := 100
  const PincodeWidth: nat := 10

  /** The services offered: a JSON object, its values kept as their JSON
      text. */
  type Services = map<string, string>

  datatype Center = Center(
    id: Id,
    userId: Id,
    district: string,
    services: Services,
    name: string,
    contact: string,
    address: string,
    location: string,
    landmark: Option<string>,
    pincode: string,
    email: Option<string>,
    clinicUrl: Option<string>,
    googleMapUrl: Option<string>,
    createdAt: Timestamp,
    updatedAt: Timestamp)

  /** The database rejects a row whose bounded columns overflow. */
  predicate CenterFits(c: Center)
  {
    && |c.district| <= DistrictWidth
    && |c.name| <= CenterNameWidth
    && |c.contact| <= CenterContactWidth
    && |c.location| <= LocationWidth
    && (c.landmark.Some? ==> |c.landmark.value| <= LandmarkWidth)
    && |c.pincode| <= PincodeWidth
  }

  /** A center built from its required columns: no services, and no
      landmark, email or links. */
  function NewCenter(id: Id, userId: Id, district: string, name: string, contact: string,
                     address: string, location: string, pincode: string,
                     createdAt: Timestamp, updatedAt: Timestamp): (c: Center)
    ensures c.services == map[]
    ensures c.landmark == None && c.email == None && c.clinicUrl == None && c.googleMapUrl == None
    ensures c.id == id && c.userId == userId && c.name == name && c.district == district
    ensures c.contact == contact && c.address == address && c.location == location && c.pincode == pincode
    ensures c.createdAt == createdAt && c.updatedAt == updatedAt
  {
    Center(id, userId, district, map[], name, contact, address, location, None, pincode,
           None, None, None, createdAt, updatedAt)
  }
}
