/** Optional values: an absent Jira field (an issue without assignee) is `None`. */
module Wrappers {

  datatype Option<+T> = None | Some(value: T)

}
