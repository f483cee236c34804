/** Values shared by every page of the portal: optional props and the toast notifications it shows. */
module Common {

  /** An optional value; `None` stands for an absent (undefined) prop or field. */
  datatype Option<T> = None | Some(value: T)

  /** The toast variant: the default style or the red "destructive" one. */
  datatype Variant = Default | Destructive

  /** One toast shown to the user, recorded as an event instead of being rendered. */
  datatype Notice = Notice(title: string, description: string, variant: Variant)
}
