/** The smaller documents the controllers store: areas, districts,
    notifications, enquiries, requirements and the live stream
    (`src/models/area.model.js`, `district.model.js`, `notification.model.js`,
    `enquiry.model.js`, `requirement.model.js`, `stream.model.js`). */
module Records {
  import opened Common

  /** An area: `name` is required, the district is optional. */
  datatype Area = Area(name: string, district: Option<Id>)

  /** A district: its `name` carries a unique index. */
  datatype District = District(name: string)

  /** The `recipient` of a notification: one user, or the string `'all'`. */
  datatype Recipient = Person(id: Id) | Everyone

  datatype Notification = Notification(recipient: Recipient, sender: Option<Id>, message: string, isRead: bool)

  const EnquiryStatuses: set<string> := {"new", "in-progress", "closed"}

  /** An enquiry, from a signed-in user or a guest (`user` null). */
  datatype Enquiry = Enquiry(
    user: Option<Id>,
    name: string,
    contact: string,
    message: Option<string>,
    email: string,
    city: string,
    status: string)

  datatype Requirement = Requirement(name: string, phone: string, requirement: string)

  /** The live stream. `isActive` defaults to false on creation; `None` is
      a stored stream whose `isActive` was assigned undefined. */
  datatype Stream = Stream(youtubeUrl: string, isActive: Option<bool>)
}
