/** An optional value: `None` where the source skips a patch or hides the hover readout. */
module Options {
  datatype Option<+T> = None | Some(value: T)
}
