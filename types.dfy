/** The records the application stores and shows, and the shapes of the replies
    it receives from the hosted database and identity service. */
module Types {

  datatype Option<T> = None | Some(value: T)

  /** The settled outcome of one asynchronous call to the hosted backend:
      it resolved with a value, or it rejected. */
  datatype Reply<T> = Ok(value: T) | Failed

  /** One entry of a developer's skill list. */
  datatype Skill = Skill(name: string, proficiency: int)

  /** A developer as the directory view receives it: the stored fields plus
      `id`, the key of the stored document. */
  datatype Developer = Developer(
    id: string,
    name: string,
    employeeId: string,
    email: string,
    location: string,
    role: string,
    project: string,
    active: bool,
    skills: seq<Skill>)

  /** A developer without `id`: what is written to, and stored in, the
      `devs` collection. */
  datatype DeveloperData = DeveloperData(
    name: string,
    employeeId: string,
    email: string,
    location: string,
    role: string,
    project: string,
    active: bool,
    skills: seq<Skill>)

  /** `{ id: key, ...data }`: a stored document with its key attached. */
  function WithId(key: string, data: DeveloperData): (dev: Developer)
    ensures dev.id == key && Data(dev) == data
  {
    Developer(key, data.name, data.employeeId, data.email, data.location,
              data.role, data.project, data.active, data.skills)
  }

  /** The stored fields of a developer, without `id`. */
  function Data(dev: Developer): DeveloperData {
    DeveloperData(dev.name, dev.employeeId, dev.email, dev.location,
                  dev.role, dev.project, dev.active, dev.skills)
  }

  function SkillNames(skills: seq<Skill>): (names: seq<string>)
    ensures |names| == |skills|
    ensures forall i :: 0 <= i < |skills| ==> names[i] == skills[i].name
  {
    seq(|skills|, i requires 0 <= i < |skills| => skills[i].name)
  }
}
