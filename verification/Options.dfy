/** Optional values, shared by every component: SQL's NULL, JavaScript's null and undefined. */
module Options {

  datatype Option<+T> = None | Some(value: T) {
    function OrElse(default: T): T { if Some? then value else default }
  }
}
