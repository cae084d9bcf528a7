/** A session as authority and coordination know it: its name and its parent's, "" for none. */
module Sessions {
  datatype Session = Session(name: string, parent: string)
}
