/**
 * One record of the ancestry data set that ch5-exercise2.js and
 * ch5-exercise3.js walk over, with the fields they read. Years are whole
 * numbers; `mother` is `None` where the data set has `null`.
 */
module Ancestry {
  import opened Wrappers

  datatype Person = Person(name: string, born: int, died: int, mother: Option<string>)
}
