/** Failure-carrying results shared by the model: the kernel's negative errno returns
    become `Err`, and an absent pointer becomes `None`. */
module Outcomes {

  datatype Option<+T> = None | Some(value: T)

  datatype Errno = ENOENT | ENODATA | ENOSPC | ENOMEM | EIO | EINVAL

  datatype Result<+T> = Ok(value: T) | Err(error: Errno)
}
